/** The camera table of the user interface, and how snapshots and events update it. */
module RowReconcile {
  import opened Wrappers
  import opened CameraFormats
  import opened Folds
  import Supervisor
  import opened CameraConfig
  import Decimal

  /** What one row shows. */
  datatype Row = Row(
    name: string, path: string, mode: string, width: int, height: int, fps: int, resolution: string,
    running: bool, present: bool, enabled: bool, pid: nat, restarts: int, viewerCount: int,
    viewerUser: string, viewerPass: string, formats: Formats)

  const NEW_ROW := Row("", "", "", 0, 0, 0, "", false, true, true, 0, 0, 0, "", "", [])

  /** One element of a payload; a field that it lacks is None. */
  datatype Entry = Entry(
    name: string, path: Option<string>, mode: Option<string>, width: Option<int>, height: Option<int>, fps: Option<int>,
    running: Option<bool>, present: Option<bool>, enabled: Option<bool>, pid: Option<nat>, restarts: Option<int>,
    viewerCount: Option<int>, viewerUser: Option<string>, viewerPass: Option<string>, formats: Option<Formats>)

  function WithStream(r: Row, e: Entry): Row {
    r.(path := e.path.GetOr(r.path), mode := e.mode.GetOr(r.mode), fps := e.fps.GetOr(r.fps),
       formats := e.formats.GetOr(r.formats))
  }

  /** A changed size is shown anew. */
  function WithSize(r: Row, e: Entry): Row {
    var w, h := e.width.GetOr(r.width), e.height.GetOr(r.height);
    r.(width := w, height := h, resolution := if w != r.width || h != r.height then SizeText(w, h) else r.resolution)
  }

  function WithStatus(r: Row, e: Entry): Row {
    r.(running := e.running.GetOr(r.running), present := e.present.GetOr(r.present),
       enabled := e.enabled.GetOr(r.enabled))
  }

  function WithCounts(r: Row, e: Entry): Row {
    r.(pid := e.pid.GetOr(r.pid), restarts := e.restarts.GetOr(r.restarts),
       viewerCount := e.viewerCount.GetOr(r.viewerCount))
  }

  function WithViewer(r: Row, e: Entry): Row {
    r.(viewerUser := e.viewerUser.GetOr(r.viewerUser), viewerPass := e.viewerPass.GetOr(r.viewerPass))
  }

  /** A row after an update: given fields replace, and the others stay. */
  function Updated(r: Row, e: Entry): Row {
    WithViewer(WithCounts(WithStatus(WithSize(WithStream(r.(name := e.name), e), e), e), e), e)
  }

  // ----- The specification on rows -----

  /** How an element updates a row: a parameter below, and always Updated in the program. */
  type Update = (Row, Entry) -> Row

  predicate HasName(rows: seq<Row>, name: string) {
    exists i | 0 <= i < |rows| :: rows[i].name == name
  }

  predicate DistinctRows(rows: seq<Row>) {
    forall i, j | 0 <= i < j < |rows| :: rows[i].name != rows[j].name
  }

  predicate Listed(entries: seq<Entry>, name: string) {
    exists k | 0 <= k < |entries| :: entries[k].name == name
  }

  /** The first row with this name, or |rows|. */
  function FindRow(rows: seq<Row>, name: string): (i: nat)
    ensures i <= |rows| && (forall j | 0 <= j < i :: rows[j].name != name)
    ensures i < |rows| ==> rows[i].name == name
  {
    if rows == [] || rows[0].name == name then 0 else 1 + FindRow(rows[1..], name)
  }

  /** One payload element: `before` are the rows that the snapshot found. */
  function MergeOne(up: Update, before: seq<Row>, rows: seq<Row>, e: Entry): (r: seq<Row>)
    requires |before| <= |rows|
    ensures |r| >= |rows|
  {
    var i := FindRow(before, e.name);
    if e.name == "" then rows
    else if i < |before| then rows[i := up(rows[i], e)]
    else rows + [up(NEW_ROW, e)]
  }

  function Merge(up: Update, before: seq<Row>, entries: seq<Entry>): (r: seq<Row>)
    ensures |r| >= |before|
  {
    if entries == [] then before
    else MergeOne(up, before, Merge(up, before, entries[..|entries| - 1]), entries[|entries| - 1])
  }

  lemma MergeNext(before: seq<Row>, entries: seq<Entry>, k: nat)
    requires k < |entries|
    ensures Merge(Updated, before, entries[..k + 1])
         == MergeOne(Updated, before, Merge(Updated, before, entries[..k]), entries[k])
  {
    hide MergeOne;
    assert entries[..k + 1][..k] == entries[..k];
  }

  /** The rows whose name the snapshot gave. */
  function Keep(rows: seq<Row>, entries: seq<Entry>): seq<Row> {
    if rows == [] then []
    else (if rows[0].name != "" && Listed(entries, rows[0].name) then [rows[0]] else []) + Keep(rows[1..], entries)
  }

  function Reconciled(up: Update, rows: seq<Row>, entries: seq<Entry>): seq<Row> {
    Keep(Merge(up, rows, entries), entries)
  }

  /** One snapshot: a table with two rows of one name stays as it is. */
  function Applied(rows: seq<Row>, entries: seq<Entry>): seq<Row> {
    if DistinctRows(rows) then Reconciled(Updated, rows, entries) else rows
  }

  lemma KeepFrom(rows: seq<Row>, i: nat, entries: seq<Entry>)
    requires i < |rows|
    ensures rows[..i + 1] == rows[..i] + [rows[i]]
    ensures Keep(rows[i..], entries)
         == (if rows[i].name != "" && Listed(entries, rows[i].name) then [rows[i]] else []) + Keep(rows[i + 1..], entries)
  {
    assert rows[i..][1..] == rows[i + 1..];
  }

  lemma DropAt<T>(a: seq<T>, x: T, b: seq<T>)
    ensures (a + [x] + b)[|a|] == x
    ensures (a + [x] + b)[..|a|] + (a + [x] + b)[|a| + 1..] == a + b
    ensures a + [x] + b == a + ([x] + b) && a + b == a + ([] + b)
  {
  }

  /** The row at `i` has the name of an earlier one, or does not spoil that the names are distinct. */
  lemma FoundOrDistinct(rows: seq<Row>, i: nat)
    requires i < |rows| && DistinctRows(rows[..i])
    ensures if FindRow(rows[..i], rows[i].name) < i then !DistinctRows(rows) else DistinctRows(rows[..i + 1])
  {
    hide FindRow;
    var front := rows[..i];
    assert forall j | 0 <= j < i :: front[j] == rows[j];
    assert forall j | 0 <= j < i :: rows[..i + 1][j] == rows[j];
  }

  // ----- The view model -----

  class CameraInfo {
    var name: string
    var path: string
    var mode: string
    var width: int
    var height: int
    var fps: int
    var resolution: string
    var running: bool
    var present: bool
    var enabled: bool
    var pid: nat
    var restarts: int
    var viewerCount: int
    var viewerUser: string
    var viewerPass: string
    var formats: Formats

    function Shown(): Row
      reads this
    {
      Row(name, path, mode, width, height, fps, resolution, running, present, enabled, pid, restarts, viewerCount,
          viewerUser, viewerPass, formats)
    }

    constructor ()
      ensures Shown() == NEW_ROW
    {
      name, path, mode, resolution, viewerUser, viewerPass := "", "", "", "", "", "";
      width, height, fps, pid, restarts, viewerCount := 0, 0, 0, 0, 0, 0;
      running, present, enabled, formats := false, true, true, [];
    }

    method SetSize(e: Entry)
      modifies this`width, this`height, this`resolution
      ensures Shown() == WithSize(old(Shown()), e)
    {
      hide SizeText;
      if e.width.Some? && e.width.value != width {
        width := e.width.value;
        resolution := SizeText(width, height);
      }
      if e.height.Some? && e.height.value != height {
        height := e.height.value;
        resolution := SizeText(width, height);
      }
    }

    method SetStatus(e: Entry)
      modifies this`running, this`present, this`enabled
      ensures Shown() == WithStatus(old(Shown()), e)
    {
      if e.running.Some? { running := e.running.value; }
      if e.present.Some? { present := e.present.value; }
      if e.enabled.Some? { enabled := e.enabled.value; }
    }

    method SetCounts(e: Entry)
      modifies this`pid, this`restarts, this`viewerCount
      ensures Shown() == WithCounts(old(Shown()), e)
    {
      if e.pid.Some? { pid := e.pid.value; }
      if e.restarts.Some? { restarts := e.restarts.value; }
      if e.viewerCount.Some? { viewerCount := e.viewerCount.value; }
    }

    method SetViewer(e: Entry)
      modifies this`viewerUser, this`viewerPass
      ensures Shown() == WithViewer(old(Shown()), e)
    {
      if e.viewerUser.Some? { viewerUser := e.viewerUser.value; }
      if e.viewerPass.Some? { viewerPass := e.viewerPass.value; }
    }

    method SetStream(e: Entry)
      modifies this`path, this`mode, this`fps, this`formats
      ensures Shown() == WithStream(old(Shown()), e)
    {
      if e.path.Some? { path := e.path.value; }
      if e.mode.Some? { mode := e.mode.value; }
      if e.fps.Some? { fps := e.fps.value; }
      if e.formats.Some? && formats != e.formats.value { formats := e.formats.value; }
    }

    method UpdateFromJson(e: Entry)
      modifies this
      ensures Shown() == Updated(old(Shown()), e)
    {
      hide WithStream, WithSize, WithStatus, WithCounts, WithViewer;
      name := e.name;
      SetStream(e);
      SetSize(e);
      SetStatus(e);
      SetCounts(e);
      SetViewer(e);
    }
  }

  class MainViewModel {
    var cameras: seq<CameraInfo>

    ghost predicate Valid()
      reads this
    {
      forall i, j | 0 <= i < j < |cameras| :: cameras[i] != cameras[j]
    }

    ghost function Rows(): (r: seq<Row>)
      reads this, cameras
      ensures |r| == |cameras| && forall i | 0 <= i < |r| :: r[i] == cameras[i].Shown()
    {
      seq(|cameras|, i requires 0 <= i < |cameras| reads this, cameras => cameras[i].Shown())
    }

    constructor ()
      ensures Valid() && Rows() == []
    {
      cameras := [];
    }

    /** The first row with this name among the first `n`. */
    method Find(name: string, n: nat) returns (i: nat)
      requires n <= |cameras|
      ensures i == FindRow(Rows()[..n], name)
    {
      i := 0;
      while i < n && cameras[i].name != name
        invariant i <= n && forall j | 0 <= j < i :: Rows()[..n][j].name != name
      {
        i := i + 1;
      }
    }

    /** Whether a dictionary by name can be built: it refuses a second row of one name. */
    method NamesDistinct() returns (ok: bool)
      ensures ok == DistinctRows(Rows())
    {
      for i := 0 to |cameras|
        invariant DistinctRows(Rows()[..i])
      {
        hide FindRow, HasName, DistinctRows;
        var j := Find(cameras[i].name, i);
        FoundOrDistinct(Rows(), i);
        if j < i { return false; }
      }
      assert Rows()[..|cameras|] == Rows();
      return true;
    }

    method AddRow(e: Entry)
      requires Valid()
      modifies this
      ensures Valid() && |cameras| == |old(cameras)| + 1 && old(cameras) == cameras[..|old(cameras)|]
      ensures fresh(cameras[|old(cameras)|])
      ensures Rows() == old(Rows()) + [Updated(NEW_ROW, e)]
    {
      var row := new CameraInfo();
      row.UpdateFromJson(e);
      cameras := cameras + [row];
    }

    method UpdateRow(i: nat, e: Entry)
      requires Valid() && i < |cameras|
      modifies cameras[i]
      ensures Rows() == old(Rows())[i := Updated(old(Rows())[i], e)]
    {
      cameras[i].UpdateFromJson(e);
    }

    /** The snapshot applied: rows updated or added, then rows not named in it removed. */
    method ApplyCameraList(entries: seq<Entry>) returns (ok: bool)
      requires Valid()
      modifies this, cameras
      ensures Valid() && ok == DistinctRows(old(Rows()))
      ensures Rows() == Applied(old(Rows()), entries)
    {
      ok := NamesDistinct();
      if !ok { return; }
      MergeEntries(entries);
      RemoveUnseen(entries);
    }

    method MergeEntries(entries: seq<Entry>)
      requires Valid()
      modifies this, cameras
      ensures Valid() && Rows() == Merge(Updated, old(Rows()), entries)
    {
      ghost var before := Rows();
      // the dictionary keeps the names that the rows have now
      var existing := cameras;
      var names := seq(|existing|, i requires 0 <= i < |existing| reads existing => existing[i].name);
      for k := 0 to |entries|
        invariant Valid() && existing <= cameras
        invariant forall o | o in cameras :: o in existing || fresh(o)
        invariant Rows() == Merge(Updated, before, entries[..k])
      {
        hide Updated, Merge, MergeOne, FindRow;
        MergeNext(before, entries, k);
        MergeEntry(entries[k], names, existing, before);
      }
      assert entries[..|entries|] == entries;
    }

    /** `before` are the rows of `existing`, at the start, under these names. */
    method MergeEntry(e: Entry, names: seq<string>, existing: seq<CameraInfo>, ghost before: seq<Row>)
      requires Valid() && existing <= cameras
      requires |names| == |before| == |existing| && forall i | 0 <= i < |names| :: names[i] == before[i].name
      modifies this, existing
      ensures Valid() && Rows() == MergeOne(Updated, before, old(Rows()), e)
      ensures existing <= cameras && forall o | o in cameras :: o in old(cameras) || fresh(o)
    {
      if e.name == "" { return; }
      var i := 0;
      while i < |names| && names[i] != e.name
        invariant i <= |names| && forall j | 0 <= j < i :: before[j].name != e.name
      {
        i := i + 1;
      }
      if i < |names| {
        UpdateRow(i, e);
      } else {
        AddRow(e);
      }
    }

    method RemoveAt(i: nat)
      requires Valid() && i < |cameras|
      modifies this`cameras
      ensures Valid() && Rows() == old(Rows())[..i] + old(Rows())[i + 1..]
    {
      cameras := cameras[..i] + cameras[i + 1..];
    }

    method RemoveUnseen(entries: seq<Entry>)
      requires Valid()
      modifies this`cameras
      ensures Valid() && Rows() == Keep(old(Rows()), entries)
    {
      ghost var rows := Rows();
      var i: nat := |cameras|;
      while i > 0
        invariant i <= |rows| && i <= |cameras| && Valid()
        invariant Rows() == rows[..i] + Keep(rows[i..], entries)
      {
        i := i - 1;
        KeepFrom(rows, i, entries);
        DropAt(rows[..i], rows[i], Keep(rows[i + 1..], entries));
        assert cameras[i].name == Rows()[i].name;
        if cameras[i].name == "" || !Listed(entries, cameras[i].name) {
          RemoveAt(i);
        }
      }
      assert rows[0..] == rows;
    }

    /** An event updates the first row of its camera, and nothing else. */
    method ApplyCameraStateEvent(e: Entry)
      requires Valid()
      modifies cameras
      ensures var i := FindRow(old(Rows()), e.name);
        Rows() == if e.name != "" && i < |old(Rows())| then old(Rows())[i := Updated(old(Rows())[i], e)] else old(Rows())
    {
      if e.name == "" { return; }
      var i := Find(e.name, |cameras|);
      assert Rows()[..|cameras|] == Rows();
      if i < |cameras| { UpdateRow(i, e); }
    }
  }

  // ----- What reconciliation comes to -----

  predicate DistinctNames(entries: seq<Entry>) {
    && (forall k | 0 <= k < |entries| :: entries[k].name != "")
    && (forall k, l | 0 <= k < l < |entries| :: entries[k].name != entries[l].name)
  }

  /** An update takes the element's name, and a second time it changes nothing. */
  ghost predicate Settling(up: Update) {
    forall r, e :: up(r, e).name == e.name && up(up(r, e), e) == up(r, e)
  }

  lemma UpdatedSettles()
    ensures Settling(Updated)
  {
  }

  /** The element with this name, or |entries|. */
  function FindEntry(entries: seq<Entry>, name: string): (k: nat)
    ensures k <= |entries| && (forall l | 0 <= l < k :: entries[l].name != name)
    ensures k < |entries| ==> entries[k].name == name
    ensures k < |entries| <==> Listed(entries, name)
  {
    if entries == [] || entries[0].name == name then 0 else 1 + FindEntry(entries[1..], name)
  }

  /** A row after all elements of the payload. */
  function Settled(up: Update, r: Row, entries: seq<Entry>): Row {
    var k := FindEntry(entries, r.name);
    if k < |entries| then up(r, entries[k]) else r
  }

  function SettledAll(up: Update, rows: seq<Row>, entries: seq<Entry>): (r: seq<Row>)
    ensures |r| == |rows| && forall i | 0 <= i < |r| :: r[i] == Settled(up, rows[i], entries)
  {
    seq(|rows|, i requires 0 <= i < |rows| => Settled(up, rows[i], entries))
  }

  /** Rows for the cameras that have none yet, in payload order. */
  function Newcomers(up: Update, rows: seq<Row>, entries: seq<Entry>): seq<Row> {
    if entries == [] then [] else
      var n := |entries| - 1;
      Newcomers(up, rows, entries[..n])
        + if entries[n].name == "" || HasName(rows, entries[n].name) then [] else [up(NEW_ROW, entries[n])]
  }

  lemma SettledSnoc(up: Update, r: Row, entries: seq<Entry>, e: Entry)
    requires !Listed(entries, e.name)
    ensures Settled(up, r, entries + [e]) == if r.name == e.name then up(r, e) else Settled(up, r, entries)
  {
    FindSnoc(entries, e, r.name);
  }

  lemma {:induction false} FindSnoc(entries: seq<Entry>, e: Entry, name: string)
    ensures FindEntry(entries + [e], name)
         == if Listed(entries, name) then FindEntry(entries, name) else if e.name == name then |entries| else |entries| + 1
  {
    if entries == [] {
    } else {
      assert (entries + [e])[1..] == entries[1..] + [e];
      FindSnoc(entries[1..], e, name);
    }
  }

  lemma DistinctFront(entries: seq<Entry>)
    requires entries != [] && DistinctNames(entries)
    ensures var n := |entries| - 1;
      DistinctNames(entries[..n]) && !Listed(entries[..n], entries[n].name) && entries == entries[..n] + [entries[n]]
  {
  }

  /** Rows in place are updated by the element of their name; the others follow. */
  lemma {:induction false} MergeShape(up: Update, rows: seq<Row>, entries: seq<Entry>)
    requires DistinctRows(rows) && DistinctNames(entries)
    ensures Merge(up, rows, entries) == SettledAll(up, rows, entries) + Newcomers(up, rows, entries)
  {
    if entries == [] {
      assert SettledAll(up, rows, []) == rows;
      assert rows + [] == rows;
    } else {
      var n := |entries| - 1;
      DistinctFront(entries);
      MergeShape(up, rows, entries[..n]);
      MergeStep(up, rows, entries[..n], entries[n]);
    }
  }

  lemma SettledAllSnoc(up: Update, rows: seq<Row>, front: seq<Entry>, e: Entry)
    requires DistinctRows(rows) && !Listed(front, e.name)
    ensures var i, all := FindRow(rows, e.name), SettledAll(up, rows, front);
      SettledAll(up, rows, front + [e]) == if i < |rows| then all[i := up(all[i], e)] else all
  {
    var a, b := SettledAll(up, rows, front), SettledAll(up, rows, front + [e]);
    forall i | 0 <= i < |rows| ensures b[i] == if rows[i].name == e.name then up(a[i], e) else a[i] {
      SettledSnoc(up, rows[i], front, e);
    }
  }

  lemma MergeStep(up: Update, rows: seq<Row>, front: seq<Entry>, e: Entry)
    requires DistinctRows(rows) && !Listed(front, e.name) && e.name != ""
    ensures MergeOne(up, rows, SettledAll(up, rows, front) + Newcomers(up, rows, front), e)
         == SettledAll(up, rows, front + [e]) + Newcomers(up, rows, front + [e])
  {
    SettledAllSnoc(up, rows, front, e);
    NewcomersSnoc(up, rows, front, e);
    UpdateOrAppend(SettledAll(up, rows, front), Newcomers(up, rows, front), FindRow(rows, e.name), up, e);
  }

  lemma UpdateOrAppend(a: seq<Row>, b: seq<Row>, i: nat, up: Update, e: Entry)
    ensures i < |a| ==> (a + b)[i := up((a + b)[i], e)] == a[i := up(a[i], e)] + b
    ensures a + b + [up(NEW_ROW, e)] == a + (b + [up(NEW_ROW, e)])
  {
  }

  lemma NewcomersSnoc(up: Update, rows: seq<Row>, front: seq<Entry>, e: Entry)
    ensures Newcomers(up, rows, front + [e])
         == if e.name == "" || FindRow(rows, e.name) < |rows| then Newcomers(up, rows, front)
            else Newcomers(up, rows, front) + [up(NEW_ROW, e)]
  {
    assert (front + [e])[..|front|] == front;
    assert HasName(rows, e.name) <==> FindRow(rows, e.name) < |rows|;
  }

  lemma {:induction false} KeepConcat(a: seq<Row>, b: seq<Row>, entries: seq<Entry>)
    ensures Keep(a + b, entries) == Keep(a, entries) + Keep(b, entries)
  {
    if a == [] {
      assert a + b == b;
    } else {
      assert (a + b)[1..] == a[1..] + b;
      KeepConcat(a[1..], b, entries);
    }
  }

  lemma {:induction false} KeepAll(rows: seq<Row>, entries: seq<Entry>)
    requires forall i | 0 <= i < |rows| :: rows[i].name != "" && Listed(entries, rows[i].name)
    ensures Keep(rows, entries) == rows
  {
    if rows != [] { KeepAll(rows[1..], entries); }
  }

  lemma SettledAllCons(up: Update, r: Row, rows: seq<Row>, entries: seq<Entry>)
    ensures SettledAll(up, [r] + rows, entries) == [Settled(up, r, entries)] + SettledAll(up, rows, entries)
    ensures [] + rows == rows
  {
    hide Settled, SettledAll;
    var all, some := SettledAll(up, [r] + rows, entries), SettledAll(up, rows, entries);
    assert all[0] == Settled(up, r, entries);
    forall i | 0 <= i < |some| ensures all[i + 1] == some[i] { assert ([r] + rows)[i + 1] == rows[i]; }
    assert all == [all[0]] + some;
  }

  lemma {:induction false} KeepSettled(up: Update, rows: seq<Row>, entries: seq<Entry>)
    requires Settling(up)
    ensures Keep(SettledAll(up, rows, entries), entries) == SettledAll(up, Keep(rows, entries), entries)
  {
    if rows == [] {
    } else {
      var all := SettledAll(up, rows, entries);
      assert all[0].name == rows[0].name;
      hide Settled, FindEntry, Listed;
      assert all[1..] == SettledAll(up, rows[1..], entries);
      KeepSettled(up, rows[1..], entries);
      SettledAllCons(up, rows[0], Keep(rows[1..], entries), entries);
    }
  }

  /** Each new row comes from a payload element whose name no old row had. */
  lemma {:induction false} NewcomersFrom(up: Update, rows: seq<Row>, entries: seq<Entry>, i: nat)
    requires Settling(up) && DistinctNames(entries) && i < |Newcomers(up, rows, entries)|
    ensures var r, k := Newcomers(up, rows, entries)[i], FindEntry(entries, Newcomers(up, rows, entries)[i].name);
      k < |entries| && r == up(NEW_ROW, entries[k]) && r.name != "" && !HasName(rows, r.name)
  {
    var n := |entries| - 1;
    var r := Newcomers(up, rows, entries)[i];
    DistinctFront(entries);
    FindSnoc(entries[..n], entries[n], r.name);
    if i < |Newcomers(up, rows, entries[..n])| {
      NewcomersFrom(up, rows, entries[..n], i);
    }
  }

  /** The table after a snapshot: the rows that stay, in their old order and updated,
      then the new ones in payload order. */
  lemma ReconciledShape(up: Update, rows: seq<Row>, entries: seq<Entry>)
    requires Settling(up) && DistinctRows(rows) && DistinctNames(entries)
    ensures Reconciled(up, rows, entries) == SettledAll(up, Keep(rows, entries), entries) + Newcomers(up, rows, entries)
  {
    var added := Newcomers(up, rows, entries);
    MergeShape(up, rows, entries);
    KeepConcat(SettledAll(up, rows, entries), added, entries);
    KeepSettled(up, rows, entries);
    forall i | 0 <= i < |added| ensures added[i].name != "" && Listed(entries, added[i].name) {
      NewcomersFrom(up, rows, entries, i);
    }
    KeepAll(added, entries);
  }

  lemma HasNameConcat(a: seq<Row>, b: seq<Row>, name: string)
    ensures HasName(a + b, name) <==> HasName(a, name) || HasName(b, name)
  {
    if HasName(a, name) {
      var i :| 0 <= i < |a| && a[i].name == name;
      assert (a + b)[i] == a[i];
    }
    if HasName(b, name) {
      var i :| 0 <= i < |b| && b[i].name == name;
      assert (a + b)[|a| + i] == b[i];
    }
  }

  lemma HasNameCons(r: Row, rows: seq<Row>, name: string)
    ensures HasName([r] + rows, name) <==> r.name == name || HasName(rows, name)
  {
    HasNameConcat([r], rows, name);
    assert [r][0].name == name || !HasName([r], name);
  }

  lemma {:induction false} KeepNames(rows: seq<Row>, entries: seq<Entry>, name: string)
    ensures HasName(Keep(rows, entries), name) <==> HasName(rows, name) && name != "" && Listed(entries, name)
  {
    if rows == [] {
    } else {
      hide HasName, Listed;
      var rest := Keep(rows[1..], entries);
      KeepNames(rows[1..], entries, name);
      assert rows == [rows[0]] + rows[1..];
      HasNameCons(rows[0], rows[1..], name);
      HasNameCons(rows[0], rest, name);
      assert [] + rest == rest;
    }
  }

  lemma {:induction false} KeepDistinct(rows: seq<Row>, entries: seq<Entry>)
    requires DistinctRows(rows)
    ensures DistinctRows(Keep(rows, entries))
  {
    if rows == [] {
    } else {
      KeepDistinct(rows[1..], entries);
      KeepNames(rows[1..], entries, rows[0].name);
      assert !HasName(rows[1..], rows[0].name);
    }
  }

  lemma SettledNames(up: Update, rows: seq<Row>, entries: seq<Entry>)
    requires Settling(up)
    ensures forall i | 0 <= i < |rows| :: SettledAll(up, rows, entries)[i].name == rows[i].name
    ensures forall name :: HasName(SettledAll(up, rows, entries), name) <==> HasName(rows, name)
  {
    var all := SettledAll(up, rows, entries);
    forall name ensures HasName(all, name) <==> HasName(rows, name) {
      if HasName(rows, name) {
        var i :| 0 <= i < |rows| && rows[i].name == name;
        assert all[i].name == name;
      }
    }
  }

  lemma {:induction false} NewcomersNames(up: Update, rows: seq<Row>, entries: seq<Entry>, name: string)
    requires Settling(up)
    ensures HasName(Newcomers(up, rows, entries), name)
       <==> name != "" && !HasName(rows, name) && Listed(entries, name)
  {
    if entries == [] {
    } else {
      var n := |entries| - 1;
      var front, last := Newcomers(up, rows, entries[..n]), [up(NEW_ROW, entries[n])];
      NewcomersNames(up, rows, entries[..n], name);
      assert entries == entries[..n] + [entries[n]];
      FindSnoc(entries[..n], entries[n], name);
      HasNameConcat(front, last, name);
      assert HasName(last, name) <==> entries[n].name == name by { assert last[0].name == entries[n].name; }
      assert front + [] == front;
    }
  }

  /** No two elements of the payload share a name that the table lacks. */
  predicate NewNamesDistinct(rows: seq<Row>, entries: seq<Entry>) {
    forall k, l | 0 <= k < l < |entries| && entries[k].name == entries[l].name != "" :: HasName(rows, entries[l].name)
  }

  lemma NewNamesSnoc(rows: seq<Row>, front: seq<Entry>, e: Entry)
    ensures NewNamesDistinct(rows, front + [e])
       <==> NewNamesDistinct(rows, front) && (e.name != "" && Listed(front, e.name) ==> HasName(rows, e.name))
  {
    hide HasName;
    var all := front + [e];
    assert forall k | 0 <= k < |front| :: all[k] == front[k];
    if NewNamesDistinct(rows, all) && e.name != "" && Listed(front, e.name) {
      var k :| 0 <= k < |front| && front[k].name == e.name;
      assert all[k].name == all[|front|].name;
    }
  }

  lemma {:induction false} NewcomersDistinct(up: Update, rows: seq<Row>, entries: seq<Entry>)
    requires Settling(up)
    ensures DistinctRows(Newcomers(up, rows, entries)) <==> NewNamesDistinct(rows, entries)
  {
    if entries == [] {
    } else {
      hide HasName, Listed, NewNamesDistinct, DistinctRows;
      var n := |entries| - 1;
      var front, e := Newcomers(up, rows, entries[..n]), entries[n];
      NewcomersDistinct(up, rows, entries[..n]);
      NewcomersNames(up, rows, entries[..n], e.name);
      assert entries == entries[..n] + [e];
      NewNamesSnoc(rows, entries[..n], e);
      assert front + [] == front;
      assert up(NEW_ROW, e).name == e.name;
      DistinctSnoc(front, up(NEW_ROW, e));
    }
  }

  lemma DistinctSnoc(a: seq<Row>, r: Row)
    ensures DistinctRows(a + [r]) <==> DistinctRows(a) && !HasName(a, r.name)
  {
    var all := a + [r];
    assert forall i | 0 <= i < |a| :: all[i] == a[i];
    if DistinctRows(all) {
      forall i | 0 <= i < |a| ensures a[i].name != r.name { assert all[i].name != all[|a|].name; }
    }
  }

  lemma DistinctConcat(a: seq<Row>, b: seq<Row>)
    requires DistinctRows(a) && DistinctRows(b) && forall i | 0 <= i < |b| :: !HasName(a, b[i].name)
    ensures DistinctRows(a + b)
  {
  }

  /** The row of a camera is as its element says. */
  predicate UpToDate(up: Update, r: Row, entries: seq<Entry>) {
    Listed(entries, r.name) && up(r, entries[FindEntry(entries, r.name)]) == r
  }

  lemma ReconciledRows(up: Update, rows: seq<Row>, entries: seq<Entry>)
    requires Settling(up) && DistinctRows(rows) && DistinctNames(entries)
    ensures DistinctRows(Reconciled(up, rows, entries))
    ensures forall i | 0 <= i < |Reconciled(up, rows, entries)| :: UpToDate(up, Reconciled(up, rows, entries)[i], entries)
    ensures forall k | 0 <= k < |entries| :: HasName(Reconciled(up, rows, entries), entries[k].name)
  {
    var kept := Keep(rows, entries);
    var stay, added := SettledAll(up, kept, entries), Newcomers(up, rows, entries);
    ReconciledShape(up, rows, entries);
    KeepDistinct(rows, entries);
    SettledNames(up, kept, entries);
    NewcomersDistinct(up, rows, entries);
    forall i | 0 <= i < |added| ensures !HasName(stay, added[i].name) && UpToDate(up, added[i], entries) {
      NewcomersFrom(up, rows, entries, i);
      KeepNames(rows, entries, added[i].name);
    }
    forall i | 0 <= i < |stay| ensures UpToDate(up, stay[i], entries) {
      KeepNames(rows, entries, kept[i].name);
    }
    DistinctConcat(stay, added);
    forall k | 0 <= k < |entries| ensures HasName(stay + added, entries[k].name) {
      KeepNames(rows, entries, entries[k].name);
      NewcomersNames(up, rows, entries, entries[k].name);
      HasNameConcat(stay, added, entries[k].name);
    }
  }

  lemma {:induction false} NoNewcomers(up: Update, rows: seq<Row>, entries: seq<Entry>)
    requires forall k | 0 <= k < |entries| :: HasName(rows, entries[k].name)
    ensures Newcomers(up, rows, entries) == []
  {
    if entries != [] {
      NoNewcomers(up, rows, entries[..|entries| - 1]);
    }
  }

  lemma ReconcileTwice(up: Update, rows: seq<Row>, entries: seq<Entry>)
    requires Settling(up) && DistinctRows(rows) && DistinctNames(entries)
    ensures Reconciled(up, Reconciled(up, rows, entries), entries) == Reconciled(up, rows, entries)
  {
    var r := Reconciled(up, rows, entries);
    ReconciledRows(up, rows, entries);
    ReconciledShape(up, r, entries);
    NoNewcomers(up, r, entries);
    KeepAll(r, entries);
    assert SettledAll(up, r, entries) == r;
    assert r + [] == r;
  }

  lemma Tails(a: seq<Row>, n: nat, i: nat, r: Row)
    requires n <= |a|
    ensures i < n ==> a[i := r][n..] == a[n..]
    ensures (a + [r])[n..] == a[n..] + [r] && a[n..] + [] == a[n..]
  {
  }

  lemma MergeOneNames(up: Update, rows: seq<Row>, front: seq<Row>, e: Entry)
    requires Settling(up) && |rows| <= |front| && forall i | 0 <= i < |rows| :: front[i].name == rows[i].name
    ensures var r := MergeOne(up, rows, front, e);
      && (forall i | 0 <= i < |rows| :: r[i].name == rows[i].name)
      && r[|rows|..] == front[|rows|..] + if e.name == "" || FindRow(rows, e.name) < |rows| then [] else [up(NEW_ROW, e)]
  {
    hide FindRow;
    var i := FindRow(rows, e.name);
    Tails(front, |rows|, i, if i < |rows| then up(front[i], e) else up(NEW_ROW, e));
  }

  /** Old rows keep their place and name, and the newcomers follow, for any payload. */
  lemma {:induction false} MergeNames(up: Update, rows: seq<Row>, entries: seq<Entry>)
    requires Settling(up)
    ensures Merge(up, rows, entries)[|rows|..] == Newcomers(up, rows, entries)
    ensures forall i | 0 <= i < |rows| :: Merge(up, rows, entries)[i].name == rows[i].name
  {
    if entries != [] {
      var n := |entries| - 1;
      assert entries == entries[..n] + [entries[n]];
      MergeNames(up, rows, entries[..n]);
      NewcomersSnoc(up, rows, entries[..n], entries[n]);
      MergeOneNames(up, rows, Merge(up, rows, entries[..n]), entries[n]);
      assert Newcomers(up, rows, entries[..n]) + [] == Newcomers(up, rows, entries[..n]);
      hide Newcomers, MergeOne;
    }
  }

  /** Exactly when the next snapshot can be applied after this one, whatever the
      payload: when no two of its elements share a name that is new to the table. */
  lemma NextSnapshotSucceedsExactly(rows: seq<Row>, entries: seq<Entry>)
    requires DistinctRows(rows)
    ensures DistinctRows(Reconciled(Updated, rows, entries)) <==> NewNamesDistinct(rows, entries)
  {
    UpdatedSettles();
    ReconciledDistinct(Updated, rows, entries);
    NewcomersDistinct(Updated, rows, entries);
  }

  lemma NewcomersStay(up: Update, rows: seq<Row>, entries: seq<Entry>)
    requires Settling(up)
    ensures Keep(Newcomers(up, rows, entries), entries) == Newcomers(up, rows, entries)
    ensures forall i | 0 <= i < |Newcomers(up, rows, entries)| :: !HasName(rows, Newcomers(up, rows, entries)[i].name)
  {
    var added := Newcomers(up, rows, entries);
    forall i | 0 <= i < |added|
      ensures added[i].name != "" && Listed(entries, added[i].name) && !HasName(rows, added[i].name)
    {
      assert HasName(added, added[i].name);
      NewcomersNames(up, rows, entries, added[i].name);
    }
    KeepAll(added, entries);
  }

  lemma DistinctConcatExactly(a: seq<Row>, b: seq<Row>)
    requires DistinctRows(a) && forall i | 0 <= i < |b| :: !HasName(a, b[i].name)
    ensures DistinctRows(a + b) <==> DistinctRows(b)
  {
    if DistinctRows(b) {
      DistinctConcat(a, b);
    } else {
      assert forall i | 0 <= i < |b| :: (a + b)[|a| + i] == b[i];
    }
  }

  lemma SameNames(a: seq<Row>, b: seq<Row>)
    requires |a| == |b| && forall i | 0 <= i < |a| :: a[i].name == b[i].name
    ensures DistinctRows(a) <==> DistinctRows(b)
    ensures forall name :: HasName(a, name) ==> HasName(b, name)
  {
  }

  lemma ReconciledDistinct(up: Update, rows: seq<Row>, entries: seq<Entry>)
    requires Settling(up) && DistinctRows(rows)
    ensures DistinctRows(Reconciled(up, rows, entries)) <==> DistinctRows(Newcomers(up, rows, entries))
  {
    hide Merge, Newcomers, Keep, HasName, DistinctRows, Listed;
    var merged, added := Merge(up, rows, entries), Newcomers(up, rows, entries);
    MergeNames(up, rows, entries);
    var were := merged[..|rows|];
    assert merged == were + added;
    SameNames(were, rows);
    KeepConcat(were, added, entries);
    NewcomersStay(up, rows, entries);
    KeepDistinct(were, entries);
    var kept := Keep(were, entries);
    forall i | 0 <= i < |added| ensures !HasName(kept, added[i].name) { KeepNames(were, entries, added[i].name); }
    DistinctConcatExactly(kept, added);
  }

  /** A payload in which it fails: one new name, twice. */
  lemma TwinsBlockTheTable(e: Entry)
    requires e.name != ""
    ensures !DistinctRows(Reconciled(Updated, [], [e, e]))
  {
    NextSnapshotSucceedsExactly([], [e, e]);
    hide Reconciled, Updated;
    assert [e, e][0].name == [e, e][1].name;
  }

  /** Once two rows share a name, every later snapshot fails too. */
  lemma {:induction false} SnapshotsStuck(rows: seq<Row>, payloads: seq<seq<Entry>>)
    requires !DistinctRows(rows)
    ensures Fold(Applied, rows, payloads) == rows
  {
    if payloads != [] { SnapshotsStuck(rows, payloads[..|payloads| - 1]); }
  }

  predicate Agrees<T(==)>(shown: T, given: Option<T>) {
    given.Some? ==> given.value == shown
  }

  /** The row shows all that the element says. */
  predicate Shows(r: Row, e: Entry) {
    && r.name == e.name && Agrees(r.path, e.path) && Agrees(r.mode, e.mode) && Agrees(r.width, e.width)
    && Agrees(r.height, e.height) && Agrees(r.fps, e.fps) && Agrees(r.running, e.running)
    && Agrees(r.present, e.present) && Agrees(r.enabled, e.enabled) && Agrees(r.pid, e.pid)
    && Agrees(r.restarts, e.restarts) && Agrees(r.viewerCount, e.viewerCount)
    && Agrees(r.viewerUser, e.viewerUser) && Agrees(r.viewerPass, e.viewerPass) && Agrees(r.formats, e.formats)
  }

  /** Row `j` shows all that the element of its name says. */
  predicate Mirrors(table: seq<Row>, entries: seq<Entry>, j: nat)
    requires j < |table|
  {
    Listed(entries, table[j].name) && Shows(table[j], entries[FindEntry(entries, table[j].name)])
  }

  lemma UpdatedShows(r: Row, e: Entry)
    requires Updated(r, e) == r
    ensures Shows(r, e)
  {
  }

  predicate Stays<T(==)>(now: T, was: T, given: Option<T>) {
    given.None? ==> now == was
  }

  /** After an update the row shows all that the element says, keeps what it says
      nothing about, and shows the size as "width x height" once it has changed. */
  lemma UpdateReplacesAndKeeps(r: Row, e: Entry)
    ensures var u := Updated(r, e);
      && Shows(u, e)
      && Stays(u.path, r.path, e.path) && Stays(u.mode, r.mode, e.mode) && Stays(u.width, r.width, e.width)
      && Stays(u.height, r.height, e.height) && Stays(u.fps, r.fps, e.fps) && Stays(u.running, r.running, e.running)
      && Stays(u.present, r.present, e.present) && Stays(u.enabled, r.enabled, e.enabled) && Stays(u.pid, r.pid, e.pid)
      && Stays(u.restarts, r.restarts, e.restarts) && Stays(u.viewerCount, r.viewerCount, e.viewerCount)
      && Stays(u.viewerUser, r.viewerUser, e.viewerUser) && Stays(u.viewerPass, r.viewerPass, e.viewerPass)
      && Stays(u.formats, r.formats, e.formats)
      && u.resolution == if u.width == r.width && u.height == r.height then r.resolution
                         else Decimal.ToString(u.width) + "x" + Decimal.ToString(u.height)
  {
    hide Decimal.ToString;
  }

  /** A row for a camera of which only the name is known. */
  lemma BareRow(e: Entry)
    requires e == Entry(e.name, None, None, None, None, None, None, None, None, None, None, None, None, None, None)
    ensures Updated(NEW_ROW, e) == Row(e.name, "", "", 0, 0, 0, "", false, true, true, 0, 0, 0, "", "", [])
  {
  }

  /** Exactly one row for each camera of a snapshot, showing all that the
      snapshot says about it, and no other row. */
  lemma OneRowPerCamera(rows: seq<Row>, entries: seq<Entry>)
    requires DistinctRows(rows) && DistinctNames(entries)
    ensures var table := Reconciled(Updated, rows, entries);
      && DistinctRows(table)
      && (forall k | 0 <= k < |entries| :: HasName(table, entries[k].name))
      && forall i | 0 <= i < |table| :: Mirrors(table, entries, i)
  {
    UpdatedSettles();
    ReconciledRows(Updated, rows, entries);
    var table := Reconciled(Updated, rows, entries);
    forall i | 0 <= i < |table|
      ensures Mirrors(table, entries, i)
    {
      assert UpToDate(Updated, table[i], entries);
      UpdatedShows(table[i], entries[FindEntry(entries, table[i].name)]);
    }
  }

  /** The rows that stay keep their old order, before the new ones in payload order;
      applying one snapshot twice is applying it once. */
  lemma ReconcileOrderedOnce(rows: seq<Row>, entries: seq<Entry>)
    requires DistinctRows(rows) && DistinctNames(entries)
    ensures var table := Reconciled(Updated, rows, entries);
      && table == SettledAll(Updated, Keep(rows, entries), entries) + Newcomers(Updated, rows, entries)
      && Reconciled(Updated, table, entries) == table
  {
    UpdatedSettles();
    ReconciledShape(Updated, rows, entries);
    ReconcileTwice(Updated, rows, entries);
  }

  // ----- The table against the supervisor -----

  function EntryOf(v: Supervisor.CamView): Entry {
    Entry(v.name, Some(v.path), Some(v.mode), Some(v.width), Some(v.height), Some(v.fps),
          Some(v.running), Some(v.present), Some(v.enabled), None, Some(v.restarts), Some(v.viewerCount),
          None, None, Some(v.formats))
  }

  /** The snapshot that the supervisor sends of its slots. */
  function EntriesOf(slots: seq<Supervisor.CamSlot>): (r: seq<Entry>)
    ensures |r| == |slots| && forall i | 0 <= i < |r| :: r[i] == EntryOf(Supervisor.View(slots[i]))
  {
    seq(|slots|, i requires 0 <= i < |slots| => EntryOf(Supervisor.View(slots[i])))
  }

  /** The row shows the camera as the supervisor has it. */
  predicate ShowsSlot(r: Row, slot: Supervisor.CamSlot) {
    && r.name == slot.cfg.friendlyName && r.path == slot.cfg.rtspPath && r.mode == ModeName(slot.cfg.mode)
    && r.width == slot.cfg.width && r.height == slot.cfg.height && r.fps == slot.cfg.fps
    && r.running == slot.running && r.present == slot.present && r.enabled == slot.cfg.enabled
    && r.restarts == slot.backoff.restarts && r.viewerCount == slot.viewerCount && r.formats == slot.formats
  }

  /** After a snapshot of the supervisor's slots, the table has a row for each
      camera and shows what the supervisor's slot says; every row is such a row. */
  lemma TableMirrorsSlots(rows: seq<Row>, slots: seq<Supervisor.CamSlot>)
    requires DistinctRows(rows) && DistinctNames(EntriesOf(slots))
    ensures var table := Reconciled(Updated, rows, EntriesOf(slots));
      && (forall i | 0 <= i < |slots| :: IsShown(table, slots[i]))
      && (forall j | 0 <= j < |table| :: IsSlot(slots, table[j]))
  {
    var table := Reconciled(Updated, rows, EntriesOf(slots));
    TableShowsEntries(rows, slots);
    hide EntriesOf, Reconciled, RowFor, EntryFor, IsShown, IsSlot;
    forall i | 0 <= i < |slots| ensures IsShown(table, slots[i]) { RowShowsSlot(table, slots, i); }
    forall j | 0 <= j < |table| ensures IsSlot(slots, table[j]) { SlotIsShown(slots, table[j]); }
  }

  predicate IsShown(table: seq<Row>, slot: Supervisor.CamSlot) {
    exists j | 0 <= j < |table| :: ShowsSlot(table[j], slot)
  }

  predicate IsSlot(slots: seq<Supervisor.CamSlot>, r: Row) {
    exists i | 0 <= i < |slots| :: ShowsSlot(r, slots[i])
  }

  lemma RowShowsSlot(table: seq<Row>, slots: seq<Supervisor.CamSlot>, i: nat)
    requires i < |slots| && RowFor(table, EntriesOf(slots)[i])
    ensures IsShown(table, slots[i])
  {
    hide Shows, ShowsSlot, EntryOf, Supervisor.View;
    var j :| 0 <= j < |table| && Shows(table[j], EntriesOf(slots)[i]);
    EntryShowsSlot(table[j], slots[i]);
  }

  lemma SlotIsShown(slots: seq<Supervisor.CamSlot>, r: Row)
    requires EntryFor(EntriesOf(slots), r)
    ensures IsSlot(slots, r)
  {
    hide Shows, ShowsSlot, EntryOf, Supervisor.View;
    var i :| 0 <= i < |slots| && Shows(r, EntriesOf(slots)[i]);
    EntryShowsSlot(r, slots[i]);
  }

  lemma EntryShowsSlot(r: Row, slot: Supervisor.CamSlot)
    requires Shows(r, EntryOf(Supervisor.View(slot)))
    ensures ShowsSlot(r, slot)
  {
  }

  lemma TableShowsEntries(rows: seq<Row>, slots: seq<Supervisor.CamSlot>)
    requires DistinctRows(rows) && DistinctNames(EntriesOf(slots))
    ensures var table, entries := Reconciled(Updated, rows, EntriesOf(slots)), EntriesOf(slots);
      && (forall i | 0 <= i < |slots| :: RowFor(table, entries[i]))
      && (forall j | 0 <= j < |table| :: EntryFor(entries, table[j]))
  {
    hide EntryOf, Reconciled, Shows, RowFor, EntryFor;
    var entries := EntriesOf(slots);
    var table := Reconciled(Updated, rows, entries);
    OneRowPerCamera(rows, entries);
    forall i | 0 <= i < |slots| ensures RowFor(table, entries[i]) { HasRowFor(table, entries, i); }
    forall j | 0 <= j < |table| ensures EntryFor(entries, table[j]) { HasEntryFor(table, entries, j); }
  }

  predicate RowFor(table: seq<Row>, e: Entry) {
    exists j | 0 <= j < |table| :: Shows(table[j], e)
  }

  predicate EntryFor(entries: seq<Entry>, r: Row) {
    exists k | 0 <= k < |entries| :: Shows(r, entries[k])
  }

  lemma HasRowFor(table: seq<Row>, entries: seq<Entry>, k: nat)
    requires DistinctNames(entries) && k < |entries| && HasName(table, entries[k].name)
    requires forall j | 0 <= j < |table| :: Mirrors(table, entries, j)
    ensures RowFor(table, entries[k])
  {
    hide Shows;
    var j :| 0 <= j < |table| && table[j].name == entries[k].name;
    FindsIt(entries, k);
    assert Mirrors(table, entries, j);
  }

  lemma HasEntryFor(table: seq<Row>, entries: seq<Entry>, j: nat)
    requires j < |table| && Mirrors(table, entries, j)
    ensures EntryFor(entries, table[j])
  {
    hide Shows;
  }

  lemma FindsIt(entries: seq<Entry>, i: nat)
    requires DistinctNames(entries) && i < |entries|
    ensures FindEntry(entries, entries[i].name) == i
  {
  }
}

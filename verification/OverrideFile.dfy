/**
 Per-camera override files: `key=value` text, read field by field and written
 back merged. The set of files is a map from file name to text.
 */
module OverrideFile {
  import opened Wrappers
  import opened CameraConfig
  import Decimal
  import opened Folds
  import Lines
  import Slug

  datatype CameraOverride = CameraOverride(
    mode: Option<Mode>, width: Option<int>, height: Option<int>, fps: Option<int>, enabled: Option<bool>)
  {
    /** What a caller may store: a known mode and 32-bit numbers. */
    predicate Valid() {
      && mode != Some(Unknown)
      && (width.Some? ==> Decimal.IsInt32(width.value))
      && (height.Some? ==> Decimal.IsInt32(height.value))
      && (fps.Some? ==> Decimal.IsInt32(fps.value))
    }

    /** These fields where given, those of `base` elsewhere. */
    function Over(base: CameraOverride): CameraOverride {
      CameraOverride(mode.Else(base.mode), width.Else(base.width), height.Else(base.height),
                     fps.Else(base.fps), enabled.Else(base.enabled))
    }

    /** No field is given here that `that` leaves open. */
    predicate Within(that: CameraOverride) {
      && (mode.Some? ==> that.mode.Some?)
      && (width.Some? ==> that.width.Some?)
      && (height.Some? ==> that.height.Some?)
      && (fps.Some? ==> that.fps.Some?)
      && (enabled.Some? ==> that.enabled.Some?)
    }
  }

  const NOTHING := CameraOverride(None, None, None, None, None)

  /** The texts by file name; the file system does not tell cases apart. */
  type Files = map<string, string>

  function FileKey(slug: string): string {
    Slug.Lowered(slug + ".override.txt")
  }

  function FileName(camera: string): string {
    FileKey(Slug.Slugify(camera))
  }

  /** Two cameras share a file exactly when their slugs agree up to case. */
  lemma SharedFileExactly(a: string, b: string)
    ensures FileName(a) == FileName(b) <==> Slug.Lowered(Slug.Slugify(a)) == Slug.Lowered(Slug.Slugify(b))
  {
    FileNameParts(Slug.Slugify(a));
    FileNameParts(Slug.Slugify(b));
    hide FileKey, Slug.Lowered, Slug.Slugify;
    var n := |FileName(a)|;
    if FileName(a) == FileName(b) {
      assert FileName(a)[..n - 13] == FileName(b)[..n - 13];
    }
  }

  lemma FileNameParts(slug: string)
    ensures FileKey(slug) == Slug.Lowered(slug) + Slug.Lowered(".override.txt")
    ensures |FileKey(slug)| == |slug| + 13 && FileKey(slug)[..|slug|] == Slug.Lowered(slug)
  {
  }

  // ----- Reading -----

  function ReadField(o: CameraOverride, k: string, v: string): CameraOverride {
    if k == "mode" then
      var m := ModeFromString(v);
      if m != Unknown then o.(mode := Some(m)) else o
    else if k == "width" then o.(width := Decimal.Stoi(v).Else(o.width))
    else if k == "height" then o.(height := Decimal.Stoi(v).Else(o.height))
    else if k == "fps" then o.(fps := Decimal.Stoi(v).Else(o.fps))
    else if k == "enabled" then
      if v == "true" then o.(enabled := Some(true))
      else if v == "false" then o.(enabled := Some(false))
      else o
    else o
  }

  function ReadLine(o: CameraOverride, line: string): CameraOverride {
    var l := Lines.DropCR(line);
    var eq := Lines.Find(l, '=');
    if eq == |l| then o else ReadField(o, l[..eq], l[eq + 1..])
  }

  function ReadLines(lines: seq<string>, o: CameraOverride): CameraOverride {
    Fold(ReadLine, o, lines)
  }

  function Parse(text: string): CameraOverride {
    ReadLines(Lines.GetLines(text), NOTHING)
  }

  function Load(files: Files, camera: string): Option<CameraOverride> {
    if FileName(camera) in files then Some(Parse(files[FileName(camera)])) else None
  }

  // ----- Writing -----

  function FieldLine(key: string, value: Option<string>): seq<string> {
    if value.Some? then [key + "=" + value.value] else []
  }

  function Shown(n: Option<int>): Option<string> {
    if n.Some? then Some(Decimal.ToString(n.value)) else None
  }

  function ShownMode(m: Option<Mode>): Option<string> {
    if m.Some? then Some(ModeName(m.value)) else None
  }

  function ShownFlag(b: Option<bool>): Option<string> {
    if b.Some? then Some(if b.value then "true" else "false") else None
  }

  function FieldLines(o: CameraOverride): seq<string> {
    FieldLine("mode", ShownMode(o.mode))
    + FieldLine("width", Shown(o.width))
    + FieldLine("height", Shown(o.height))
    + FieldLine("fps", Shown(o.fps))
    + FieldLine("enabled", ShownFlag(o.enabled))
  }

  function CameraLine(camera: string): string {
    "camera=" + camera + "\n"
  }

  function Print(camera: string, o: CameraOverride): string {
    CameraLine(camera) + Lines.Join(FieldLines(o))
  }

  function Merged(files: Files, camera: string, update: CameraOverride): CameraOverride {
    update.Over(Load(files, camera).GetOr(NOTHING))
  }

  function Saved(files: Files, camera: string, update: CameraOverride): Files {
    files[FileName(camera) := Print(camera, Merged(files, camera, update))]
  }

  method Overlay(existing: CameraOverride, update: CameraOverride) returns (merged: CameraOverride)
    ensures merged == update.Over(existing)
  {
    merged := existing;
    if update.mode.Some? { merged := merged.(mode := update.mode); }
    if update.width.Some? { merged := merged.(width := update.width); }
    if update.height.Some? { merged := merged.(height := update.height); }
    if update.fps.Some? { merged := merged.(fps := update.fps); }
    if update.enabled.Some? { merged := merged.(enabled := update.enabled); }
  }

  /** The directory of override files. */
  class ProbesDir {
    var files: Files

    constructor (files: Files)
      ensures this.files == files
    {
      this.files := files;
    }

    method LoadOverride(camera: string) returns (r: Option<CameraOverride>)
      ensures r == Load(files, camera)
    {
      var slug := Slug.SlugifyName(camera);
      if FileKey(slug) !in files { return None; }
      var o := ReadAllLines(Lines.GetLines(files[FileKey(slug)]));
      return Some(o);
    }

    static method ReadAllLines(lines: seq<string>) returns (o: CameraOverride)
      ensures o == ReadLines(lines, NOTHING)
    {
      hide ReadLine;
      o := NOTHING;
      for i := 0 to |lines|
        invariant o == ReadLines(lines[..i], NOTHING)
      {
        FoldSnoc(ReadLine, NOTHING, lines[..i], lines[i]);
        assert lines[..i + 1] == lines[..i] + [lines[i]];
        o := ReadOneLine(o, lines[i]);
      }
      assert lines[..|lines|] == lines;
    }

    static method ReadOneLine(o: CameraOverride, line: string) returns (r: CameraOverride)
      ensures r == ReadLine(o, line)
    {
      var l := line;
      if l != "" && l[|l| - 1] == '\r' { l := l[..|l| - 1]; }
      var eq := Lines.Find(l, '=');
      if eq == |l| { return o; }
      r := ReadField(o, l[..eq], l[eq + 1..]);
    }

    /** `writable` says whether the file can be opened for writing. */
    method SaveOverride(camera: string, update: CameraOverride, writable: bool) returns (ok: bool)
      modifies this
      ensures ok == writable
      ensures files == if writable then Saved(old(files), camera, update) else old(files)
    {
      var existing := LoadOverride(camera);
      var merged := Overlay(existing.GetOr(NOTHING), update);
      if !writable { return false; }
      var slug := Slug.SlugifyName(camera);
      files := files[FileKey(slug) := Print(camera, merged)];
      return true;
    }
  }

  // ----- Round trip -----

  lemma KeyValueLine(k: string, v: string, o: CameraOverride)
    requires '=' !in k
    requires v != "" && v[|v| - 1] != '\r'
    ensures ReadLine(o, k + "=" + v) == ReadField(o, k, v)
  {
    var l := k + "=" + v;
    assert l[|l| - 1] == v[|v| - 1];
    Lines.FindAfter(k, '=', v);
    assert l == k + ['='] + v;
    assert l[..|k|] == k && l[|k| + 1..] == v;
  }

  lemma ReadLinesField(lines: seq<string>, k: string, value: Option<string>, o: CameraOverride)
    requires '=' !in k
    requires value.Some? ==> value.value != "" && value.value[|value.value| - 1] != '\r'
    ensures ReadLines(lines + FieldLine(k, value), o)
         == if value.Some? then ReadField(ReadLines(lines, o), k, value.value) else ReadLines(lines, o)
  {
    if value.Some? {
      var l := k + "=" + value.value;
      FoldSnoc(ReadLine, o, lines, l);
      KeyValueLine(k, value.value, ReadLines(lines, o));
    } else {
      assert lines + [] == lines;
    }
  }

  lemma ReadLinesNumber(lines: seq<string>, k: string, n: Option<int>, o: CameraOverride)
    requires '=' !in k
    requires n.Some? ==> Decimal.IsInt32(n.value)
    ensures n.Some? ==> Decimal.Stoi(Decimal.ToString(n.value)) == n
    ensures ReadLines(lines + FieldLine(k, Shown(n)), o)
         == if n.Some? then ReadField(ReadLines(lines, o), k, Decimal.ToString(n.value)) else ReadLines(lines, o)
  {
    if n.Some? {
      Decimal.StoiToString(n.value);
      Decimal.ToStringChars(n.value);
    }
    ReadLinesField(lines, k, Shown(n), o);
  }

  lemma FieldsByKey(o: CameraOverride, v: string)
    ensures ReadField(o, "mode", v) == if ModeFromString(v) != Unknown then o.(mode := Some(ModeFromString(v))) else o
    ensures ReadField(o, "width", v) == o.(width := Decimal.Stoi(v).Else(o.width))
    ensures ReadField(o, "height", v) == o.(height := Decimal.Stoi(v).Else(o.height))
    ensures ReadField(o, "fps", v) == o.(fps := Decimal.Stoi(v).Else(o.fps))
    ensures v == "true" || v == "false" ==> ReadField(o, "enabled", v) == o.(enabled := Some(v == "true"))
  {
    hide ModeFromString, Decimal.Stoi;
    assert |"mode"| == 4 && |"width"| == 5 && |"height"| == 6 && |"fps"| == 3 && |"enabled"| == 7;
  }

  lemma ReadMode(lines: seq<string>, mode: Option<Mode>, o: CameraOverride)
    requires mode != Some(Unknown)
    ensures var r := ReadLines(lines, o);
      ReadLines(lines + FieldLine("mode", ShownMode(mode)), o) == r.(mode := mode.Else(r.mode))
  {
    if mode.Some? { ModeNames(mode.value, ""); }
    hide ReadLines, ReadField, ModeName, ModeFromString, FieldLine;
    ReadLinesField(lines, "mode", ShownMode(mode), o);
    if mode.Some? { FieldsByKey(ReadLines(lines, o), ModeName(mode.value)); }
  }

  lemma ReadNumbers(lines: seq<string>, n: Option<int>, o: CameraOverride)
    requires n.Some? ==> Decimal.IsInt32(n.value)
    ensures var r := ReadLines(lines, o);
      && ReadLines(lines + FieldLine("width", Shown(n)), o) == r.(width := n.Else(r.width))
      && ReadLines(lines + FieldLine("height", Shown(n)), o) == r.(height := n.Else(r.height))
      && ReadLines(lines + FieldLine("fps", Shown(n)), o) == r.(fps := n.Else(r.fps))
  {
    hide ReadLines, ReadField, FieldLine, Shown, Decimal.Stoi, Decimal.ToString;
    ReadLinesNumber(lines, "width", n, o);
    ReadLinesNumber(lines, "height", n, o);
    ReadLinesNumber(lines, "fps", n, o);
    if n.Some? { FieldsByKey(ReadLines(lines, o), Decimal.ToString(n.value)); }
  }

  lemma ReadEnabled(lines: seq<string>, enabled: Option<bool>, o: CameraOverride)
    ensures var r := ReadLines(lines, o);
      ReadLines(lines + FieldLine("enabled", ShownFlag(enabled)), o) == r.(enabled := enabled.Else(r.enabled))
  {
    hide ReadLines, ReadField, FieldLine;
    ReadLinesField(lines, "enabled", ShownFlag(enabled), o);
    if enabled.Some? { FieldsByKey(ReadLines(lines, o), ShownFlag(enabled).value); }
  }

  /** Reading the field lines of an override lays it over what was there. */
  lemma ReadFieldLines(o: CameraOverride, base: CameraOverride)
    requires o.Valid()
    ensures ReadLines(FieldLines(o), base) == o.Over(base)
  {
    assert ReadLines([], base) == base;
    hide ReadLines, FieldLine, Shown, ShownMode, ShownFlag;
    var l1 := FieldLine("mode", ShownMode(o.mode));
    var l2 := l1 + FieldLine("width", Shown(o.width));
    var l3 := l2 + FieldLine("height", Shown(o.height));
    var l4 := l3 + FieldLine("fps", Shown(o.fps));
    assert [] + l1 == l1;
    ReadMode([], o.mode, base);
    ReadNumbers(l1, o.width, base);
    ReadNumbers(l2, o.height, base);
    ReadNumbers(l3, o.fps, base);
    ReadEnabled(l4, o.enabled, base);
  }

  lemma NumberNewlineFree(k: string, n: Option<int>)
    requires Lines.NewlineFree(k)
    ensures Lines.AllNewlineFree(FieldLine(k, Shown(n)))
  {
    if n.Some? { Decimal.ToStringChars(n.value); }
  }

  lemma ModeNewlineFree(m: Mode)
    ensures Lines.NewlineFree("mode" + "=" + ModeName(m))
  {
  }

  lemma AppendNewlineFree(a: seq<string>, b: seq<string>)
    requires Lines.AllNewlineFree(a) && Lines.AllNewlineFree(b)
    ensures Lines.AllNewlineFree(a + b)
  {
  }

  lemma FlagNewlineFree(enabled: Option<bool>)
    ensures Lines.AllNewlineFree(FieldLine("enabled", ShownFlag(enabled)))
  {
  }

  lemma FieldLinesNewlineFree(o: CameraOverride)
    ensures Lines.AllNewlineFree(FieldLines(o))
  {
    if o.mode.Some? { ModeNewlineFree(o.mode.value); }
    var l1 := FieldLine("mode", ShownMode(o.mode));
    assert Lines.AllNewlineFree(l1);
    hide Lines.AllNewlineFree, FieldLine, Shown, ShownMode, ShownFlag;
    var l2, l3 := FieldLine("width", Shown(o.width)), FieldLine("height", Shown(o.height));
    var l4 := FieldLine("fps", Shown(o.fps));
    NumberNewlineFree("width", o.width);
    NumberNewlineFree("height", o.height);
    NumberNewlineFree("fps", o.fps);
    FlagNewlineFree(o.enabled);
    AppendNewlineFree(l1, l2);
    AppendNewlineFree(l1 + l2, l3);
    AppendNewlineFree(l1 + l2 + l3, l4);
    AppendNewlineFree(l1 + l2 + l3 + l4, FieldLine("enabled", ShownFlag(o.enabled)));
  }

  lemma CameraLineEnds(camera: string)
    ensures Lines.Of(CameraLine(camera)).tail == ""
  {
    Lines.OfSnoc("camera=" + camera, '\n');
    assert CameraLine(camera) == "camera=" + camera + ['\n'];
  }

  /** The lines of a file are those of its camera line, then the field lines. */
  lemma GetLinesOfFile(camera: string, fields: seq<string>)
    requires Lines.AllNewlineFree(fields)
    ensures Lines.GetLines(CameraLine(camera) + Lines.Join(fields)) == Lines.GetLines(CameraLine(camera)) + fields
  {
    hide Lines.Of, Lines.Join, CameraLine;
    var head, body := CameraLine(camera), Lines.Join(fields);
    CameraLineEnds(camera);
    Lines.OfConcat(head, body);
    Lines.OfJoin(fields);
    assert "" + body == body;
  }

  /** For every camera name: what is read back is the override over whatever the
      camera line itself makes the reader see. */
  lemma ParsePrint(camera: string, o: CameraOverride)
    requires o.Valid()
    ensures Parse(Print(camera, o)) == o.Over(Parse(CameraLine(camera)))
  {
    FieldLinesNewlineFree(o);
    GetLinesOfFile(camera, FieldLines(o));
    FoldConcat(ReadLine, NOTHING, Lines.GetLines(CameraLine(camera)), FieldLines(o));
    ReadFieldLines(o, Parse(CameraLine(camera)));
  }

  /** A name without a newline makes the reader see nothing. */
  lemma CameraLineIsInert(camera: string)
    requires Lines.NewlineFree(camera)
    ensures Parse(CameraLine(camera)) == NOTHING
  {
    var l := "camera=" + camera;
    Lines.OfFirstLine(l, "");
    assert CameraLine(camera) == l + "\n" + "";
    assert Lines.GetLines(CameraLine(camera)) == [l];
    hide ReadLine;
    FoldSnoc(ReadLine, NOTHING, [], l);
    assert [] + [l] == [l];
    CameraFieldIgnored(camera);
  }

  lemma CameraFieldIgnored(camera: string)
    ensures ReadLine(NOTHING, "camera=" + camera) == NOTHING
  {
    var d := Lines.DropCR("camera=" + camera);
    var k := "camera";
    assert d == k + ['='] + d[7..] && '=' !in k;
    Lines.FindAfter(k, '=', d[7..]);
    hide Lines.Find, Lines.DropCR;
    assert d[..6] == k && d[6 + 1..] == d[7..];
  }

  /** Exactly when a written override is read back unchanged: when the camera
      line shows the reader no field that the override leaves open. */
  lemma LoadsBackExactly(camera: string, o: CameraOverride)
    requires o.Valid()
    ensures Parse(Print(camera, o)) == o <==> Parse(CameraLine(camera)).Within(o)
    ensures Lines.NewlineFree(camera) ==> Parse(Print(camera, o)) == o
  {
    ParsePrint(camera, o);
    if Lines.NewlineFree(camera) {
      CameraLineIsInert(camera);
    }
  }

  /** A newline in a name can pass for a field: any frame rate is read back from
      a file that was written with no field at all. */
  lemma NewlineNameInjectsField(name: string, fps: int)
    requires Decimal.IsInt32(fps) && Lines.NewlineFree(name)
    ensures Parse(Print(name + "\nfps=" + Decimal.ToString(fps), NOTHING)) == NOTHING.(fps := Some(fps))
  {
    hide Decimal.ToString;
    var o := NOTHING.(fps := Some(fps));
    var l := "fps=" + Decimal.ToString(fps);
    assert "fps" + "=" + Decimal.ToString(fps) == l;
    assert FieldLines(o) == [l] && [l][..0] == [];
    assert Lines.Join([l]) == Lines.Join([]) + l + "\n" == l + "\n";
    assert "\n" + "fps=" == "\nfps=";
    Regroup("camera=", name, "\n", "fps=", Decimal.ToString(fps));
    assert Print(name, o) == Print(name + "\nfps=" + Decimal.ToString(fps), NOTHING);
    hide Parse, Print;
    LoadsBackExactly(name, o);
  }

  lemma Regroup(a: string, b: string, c: string, d: string, e: string)
    ensures a + b + c + (d + e + c) == a + (b + (c + d) + e) + c + ""
  {
  }

  lemma ReadLineValid(o: CameraOverride, line: string)
    requires o.Valid()
    ensures ReadLine(o, line).Valid()
  {
  }

  lemma {:induction false} ReadLinesValid(lines: seq<string>, o: CameraOverride)
    requires o.Valid()
    ensures ReadLines(lines, o).Valid()
  {
    if lines != [] {
      ReadLinesValid(lines[..|lines| - 1], o);
      ReadLineValid(ReadLines(lines[..|lines| - 1], o), lines[|lines| - 1]);
    }
  }

  lemma MergedValid(files: Files, camera: string, update: CameraOverride)
    requires update.Valid()
    ensures Merged(files, camera, update).Valid()
  {
    if FileName(camera) in files {
      ReadLinesValid(Lines.GetLines(files[FileName(camera)]), NOTHING);
    }
  }

  /** One save: the camera's file now holds the update over what it held before,
      and no other file changed. */
  lemma LoadSaved(files: Files, camera: string, update: CameraOverride)
    requires update.Valid() && Lines.NewlineFree(camera)
    ensures Load(Saved(files, camera, update), camera) == Some(Merged(files, camera, update))
    ensures forall other | FileName(other) != FileName(camera) ::
              Load(Saved(files, camera, update), other) == Load(files, other)
  {
    MergedValid(files, camera, update);
    LoadsBackExactly(camera, Merged(files, camera, update));
  }

  function SaveAll(files: Files, camera: string, updates: seq<CameraOverride>): Files {
    if updates == [] then files
    else Saved(SaveAll(files, camera, updates[..|updates| - 1]), camera, updates[|updates| - 1])
  }

  /** `r` is the last value given among `values`, or `before` when none is. */
  predicate LastGiven<T(==)>(r: Option<T>, values: seq<Option<T>>, before: Option<T>) {
    || (r == before && forall i | 0 <= i < |values| :: values[i].None?)
    || exists i | 0 <= i < |values| ::
         r.Some? && values[i] == r && forall j | i < j < |values| :: values[j].None?
  }

  lemma LastGivenSnoc<T>(r: Option<T>, values: seq<Option<T>>, v: Option<T>, before: Option<T>)
    requires LastGiven(r, values, before)
    ensures LastGiven(v.Else(r), values + [v], before)
  {
    var all := values + [v];
    if v.Some? {
      assert all[|values|] == v;
    } else if !(r == before && forall i | 0 <= i < |values| :: values[i].None?) {
      var i :| 0 <= i < |values| && r.Some? && values[i] == r && forall j | i < j < |values| :: values[j].None?;
      assert all[i] == r;
    }
  }

  function Field<T>(updates: seq<CameraOverride>, f: CameraOverride -> Option<T>): (r: seq<Option<T>>) {
    seq(|updates|, i requires 0 <= i < |updates| => f(updates[i]))
  }

  lemma FieldSnoc<T>(updates: seq<CameraOverride>, f: CameraOverride -> Option<T>)
    requires updates != []
    ensures Field(updates, f) == Field(updates[..|updates| - 1], f) + [f(updates[|updates| - 1])]
  {
  }

  ghost predicate LastOfEach(o: CameraOverride, updates: seq<CameraOverride>, before: CameraOverride) {
    && LastGiven(o.mode, Field(updates, (u: CameraOverride) => u.mode), before.mode)
    && LastGiven(o.width, Field(updates, (u: CameraOverride) => u.width), before.width)
    && LastGiven(o.height, Field(updates, (u: CameraOverride) => u.height), before.height)
    && LastGiven(o.fps, Field(updates, (u: CameraOverride) => u.fps), before.fps)
    && LastGiven(o.enabled, Field(updates, (u: CameraOverride) => u.enabled), before.enabled)
  }

  lemma NoneGiven(o: CameraOverride)
    ensures LastOfEach(o, [], o)
  {
  }

  /** One more update laid over what was given last. */
  lemma LastOfEachSnoc(o: CameraOverride, updates: seq<CameraOverride>, u: CameraOverride, before: CameraOverride)
    requires LastOfEach(o, updates, before)
    ensures LastOfEach(u.Over(o), updates + [u], before)
  {
    var all := updates + [u];
    assert all[..|updates|] == updates;
    FieldSnoc(all, (u: CameraOverride) => u.mode);
    FieldSnoc(all, (u: CameraOverride) => u.width);
    FieldSnoc(all, (u: CameraOverride) => u.height);
    FieldSnoc(all, (u: CameraOverride) => u.fps);
    FieldSnoc(all, (u: CameraOverride) => u.enabled);
    LastGivenSnoc(o.mode, Field(updates, (u: CameraOverride) => u.mode), u.mode, before.mode);
    LastGivenSnoc(o.width, Field(updates, (u: CameraOverride) => u.width), u.width, before.width);
    LastGivenSnoc(o.height, Field(updates, (u: CameraOverride) => u.height), u.height, before.height);
    LastGivenSnoc(o.fps, Field(updates, (u: CameraOverride) => u.fps), u.fps, before.fps);
    LastGivenSnoc(o.enabled, Field(updates, (u: CameraOverride) => u.enabled), u.enabled, before.enabled);
    hide LastGiven, Field;
  }

  /** After any series of saves, loading gives for each field the value given
      last, or what the file held before the series when none was given. */
  lemma {:induction false} LoadSaveAll(files: Files, camera: string, updates: seq<CameraOverride>)
    requires Lines.NewlineFree(camera)
    requires forall i | 0 <= i < |updates| :: updates[i].Valid()
    ensures LastOfEach(Load(SaveAll(files, camera, updates), camera).GetOr(NOTHING), updates,
                       Load(files, camera).GetOr(NOTHING))
    ensures updates != [] ==> Load(SaveAll(files, camera, updates), camera).Some?
  {
    hide Load, Saved, LastOfEach;
    if updates == [] {
      NoneGiven(Load(files, camera).GetOr(NOTHING));
    } else {
      var n := |updates| - 1;
      var fs := SaveAll(files, camera, updates[..n]);
      assert updates[..n] + [updates[n]] == updates;
      LoadSaveAll(files, camera, updates[..n]);
      LoadSaved(fs, camera, updates[n]);
      LastOfEachSnoc(Load(fs, camera).GetOr(NOTHING), updates[..n], updates[n], Load(files, camera).GetOr(NOTHING));
    }
  }

  /** The whole file of a camera, line by line. */
  lemma FileText(files: Files, camera: string, u: CameraOverride)
    requires u.mode.Some? && u.width.Some? && u.height.Some? && u.fps.Some? && u.enabled.Some?
    ensures var after, name := Saved(files, camera, u), Slug.Lowered(Slug.Slugify(camera)) + ".override.txt";
      && name in after && (forall other | other != name :: other in after <==> other in files)
      && (forall other | other != name && other in files :: after[other] == files[other])
      && after[name] == "camera=" + camera + "\n" + Lines.Join([
           "mode=" + ModeName(u.mode.value), "width=" + Decimal.ToString(u.width.value),
           "height=" + Decimal.ToString(u.height.value), "fps=" + Decimal.ToString(u.fps.value),
           "enabled=" + (if u.enabled.value then "true" else "false")])
  {
    FileNameParts(Slug.Slugify(camera));
    assert Slug.Lowered(".override.txt") == ".override.txt";
    FieldsInOrder(u);
    hide Load, FieldLines, Slug.Lowered, Slug.Slugify, ModeName, Decimal.ToString, Lines.Join, FileKey;
    assert Merged(files, camera, u) == u;
  }

  lemma FieldsInOrder(u: CameraOverride)
    requires u.mode.Some? && u.width.Some? && u.height.Some? && u.fps.Some? && u.enabled.Some?
    ensures FieldLines(u) == [
      "mode=" + ModeName(u.mode.value), "width=" + Decimal.ToString(u.width.value),
      "height=" + Decimal.ToString(u.height.value), "fps=" + Decimal.ToString(u.fps.value),
      "enabled=" + (if u.enabled.value then "true" else "false")]
  {
    hide ModeName, Decimal.ToString;
    assert "mode" + "=" == "mode=" && "width" + "=" == "width=" && "height" + "=" == "height=";
    assert "fps" + "=" == "fps=" && "enabled" + "=" == "enabled=";
  }

  /** A field of the file holds, whether its line ends in a carriage return or not. */
  lemma CarriageReturnsDoNotMatter(o: CameraOverride, line: string)
    requires line == "" || line[|line| - 1] != '\r'
    ensures ReadLine(o, line + "\r") == ReadLine(o, line)
  {
    Lines.DropCRIs(line);
  }
}

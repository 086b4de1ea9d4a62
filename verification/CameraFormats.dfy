/**
 Formats that a camera advertises: removing repeated rows, choosing a default
 among them, and the list of sizes offered to the user.
 */
module CameraFormats {
  import opened Wrappers
  import opened CameraConfig
  import opened Folds
  import opened StableSort
  import Decimal
  import Lines

  datatype AdvertisedFormat = AdvertisedFormat(
    kind: string, codec: string, pixFmt: string, width: nat, height: nat, minFps: real, maxFps: real)

  type Formats = seq<AdvertisedFormat>

  predicate SameKey(a: AdvertisedFormat, b: AdvertisedFormat) {
    a.kind == b.kind && a.codec == b.codec && a.pixFmt == b.pixFmt && a.width == b.width && a.height == b.height
  }

  predicate HasKey(a: Formats, f: AdvertisedFormat) {
    exists g :: g in a && SameKey(f, g)
  }

  /** Two lists name the same (kind, codec, pixel format, size) tuples. */
  predicate SameKeys(a: Formats, b: Formats) {
    && (forall f :: f in a ==> HasKey(b, f))
    && (forall f :: f in b ==> HasKey(a, f))
  }

  // ----- Sort and unique -----

  predicate TextLess(a: string, b: string) {
    b != "" && (a == "" || a[0] < b[0] || (a[0] == b[0] && TextLess(a[1..], b[1..])))
  }

  predicate KeyLess(a: AdvertisedFormat, b: AdvertisedFormat) {
    TextLess(a.kind, b.kind) || (a.kind == b.kind && (
      TextLess(a.codec, b.codec) || (a.codec == b.codec && (
        TextLess(a.pixFmt, b.pixFmt) || (a.pixFmt == b.pixFmt && (
          a.width < b.width || (a.width == b.width && a.height < b.height)))))))
  }

  lemma {:induction false} TextOrder(a: string, b: string, c: string)
    ensures !TextLess(a, a)
    ensures a == b || TextLess(a, b) || TextLess(b, a)
    ensures TextLess(a, b) && TextLess(b, c) ==> TextLess(a, c)
  {
    var a', b', c' := if a == "" then "" else a[1..], if b == "" then "" else b[1..], if c == "" then "" else c[1..];
    if a != "" && b != "" {
      assert a[0] == b[0] && a' == b' ==> a == b by { assert a == [a[0]] + a' && b == [b[0]] + b'; }
    }
    if a != "" { TextOrder(a', b', c'); }
  }

  lemma KeyOrder(a: AdvertisedFormat, b: AdvertisedFormat, c: AdvertisedFormat)
    ensures !KeyLess(a, a)
    ensures SameKey(a, b) || KeyLess(a, b) || KeyLess(b, a)
    ensures KeyLess(a, b) && KeyLess(b, c) ==> KeyLess(a, c)
  {
    TextOrder(a.kind, b.kind, c.kind);
    TextOrder(a.codec, b.codec, c.codec);
    TextOrder(a.pixFmt, b.pixFmt, c.pixFmt);
  }

  /** What `std::sort` promises; the order of rows with one key is open. */
  predicate SortResult(raw: Formats, sorted: Formats) {
    && multiset(raw) == multiset(sorted)
    && forall i, j | 0 <= i < j < |sorted| :: !KeyLess(sorted[j], sorted[i])
  }

  predicate StrictlySorted(a: Formats) {
    forall i, j | 0 <= i < j < |a| :: KeyLess(a[i], a[j])
  }

  predicate Covers(a: Formats, rows: Formats) {
    forall f :: f in rows ==> HasKey(a, f)
  }

  predicate Among(a: Formats, rows: Formats) {
    forall f :: f in a ==> f in rows
  }

  /** Rows of equal keys collapse to the first; the result has the same keys, each once. */
  method UniqueRows(raw: Formats, sorted: Formats) returns (out: Formats)
    requires SortResult(raw, sorted)
    ensures StrictlySorted(out) && SameKeys(raw, out) && Among(out, raw)
  {
    out := [];
    for i := 0 to |sorted|
      invariant StrictlySorted(out) && Among(out, sorted[..i]) && Covers(out, sorted[..i])
    {
      assert sorted[..i + 1] == sorted[..i] + [sorted[i]];
      if out == [] || !SameKey(out[|out| - 1], sorted[i]) {
        if out != [] { LaterIsNotLess(raw, sorted, i, out[|out| - 1]); }
        AppendKeepsOrder(out, sorted[i]);
        KeepKeys(out, sorted[..i], sorted[i]);
        out := out + [sorted[i]];
      } else {
        assert HasKey(out, sorted[i]) by { assert out[|out| - 1] in out; }
      }
    }
    assert sorted[..|sorted|] == sorted;
    SortedHasSameRows(raw, sorted, out);
  }

  lemma AppendKeepsOrder(a: Formats, f: AdvertisedFormat)
    requires StrictlySorted(a)
    requires a != [] ==> !SameKey(a[|a| - 1], f) && !KeyLess(f, a[|a| - 1])
    ensures StrictlySorted(a + [f])
  {
    if a != [] {
      var last := a[|a| - 1];
      KeyOrder(last, f, f);
      forall k | 0 <= k < |a| ensures KeyLess(a[k], f) {
        KeyOrder(a[k], last, f);
      }
    }
  }

  lemma LaterIsNotLess(raw: Formats, sorted: Formats, i: nat, g: AdvertisedFormat)
    requires SortResult(raw, sorted) && i < |sorted| && g in sorted[..i]
    ensures !KeyLess(sorted[i], g)
  {
  }

  lemma KeepKeys(a: Formats, rows: Formats, f: AdvertisedFormat)
    requires Among(a, rows) && Covers(a, rows)
    ensures Among(a + [f], rows + [f]) && Covers(a + [f], rows + [f])
  {
    forall g | g in rows + [f] ensures HasKey(a + [f], g) {
      if g in rows {
        var h :| h in a && SameKey(g, h);
        assert h in a + [f];
      } else {
        assert f in a + [f] && SameKey(f, f);
      }
    }
  }

  lemma SortedHasSameRows(raw: Formats, sorted: Formats, out: Formats)
    requires multiset(raw) == multiset(sorted)
    requires Among(out, sorted) && Covers(out, sorted)
    ensures SameKeys(raw, out) && Among(out, raw)
  {
    forall f ensures f in raw <==> f in sorted {
      assert f in multiset(raw) <==> f in multiset(sorted);
    }
    forall f | f in out ensures HasKey(raw, f) {
      assert SameKey(f, f);
    }
  }

  // ----- The default pick -----

  const PREF_W := 640
  const PREF_H := 480

  function Area(f: AdvertisedFormat): nat {
    f.width * f.height
  }

  predicate Fits(f: AdvertisedFormat) {
    f.width <= PREF_W && f.height <= PREF_H
  }

  predicate Exact(f: AdvertisedFormat) {
    f.width == PREF_W && f.height == PREF_H
  }

  /** The preferred size beats any size within it, and that any other; then area decides. */
  function Class(f: AdvertisedFormat): nat {
    if Exact(f) then 2 else if Fits(f) then 1 else 0
  }

  predicate Better(f: AdvertisedFormat, g: AdvertisedFormat) {
    Class(f) > Class(g) || (Class(f) == Class(g) && Area(f) > Area(g))
  }

  predicate IsMjpeg(f: AdvertisedFormat) {
    f.kind == "compressed" && f.codec == "mjpeg"
  }

  predicate IsRaw(f: AdvertisedFormat) {
    f.kind == "raw"
  }

  function Improve(want: AdvertisedFormat -> bool)
    : (Option<AdvertisedFormat>, AdvertisedFormat) -> Option<AdvertisedFormat>
  {
    (best: Option<AdvertisedFormat>, f: AdvertisedFormat) =>
      if want(f) && (best.None? || Better(f, best.value)) then Some(f) else best
  }

  function Best(formats: Formats, want: AdvertisedFormat -> bool): Option<AdvertisedFormat> {
    Fold(Improve(want), None, formats)
  }

  method PickBest(formats: Formats, want: AdvertisedFormat -> bool) returns (r: Option<AdvertisedFormat>)
    ensures r == Best(formats, want)
  {
    var leSized: Option<AdvertisedFormat>, largest: Option<AdvertisedFormat> := None, None;
    for i := 0 to |formats|
      invariant Best(formats[..i], want) == if leSized.Some? then leSized else largest
      invariant leSized.Some? ==> Class(leSized.value) == 1
      invariant leSized.None? && largest.Some? ==> Class(largest.value) == 0
    {
      var f := formats[i];
      assert formats[..i + 1] == formats[..i] + [f];
      FoldSnoc(Improve(want), None, formats[..i], f);
      if want(f) {
        if f.width == PREF_W && f.height == PREF_H {
          BestExactStays(formats, want, i + 1);
          return Some(f);
        }
        if f.width <= PREF_W && f.height <= PREF_H {
          if leSized.None? || f.width * f.height > leSized.value.width * leSized.value.height { leSized := Some(f); }
        }
        if largest.None? || f.width * f.height > largest.value.width * largest.value.height { largest := Some(f); }
      }
    }
    assert formats[..|formats|] == formats;
    return if leSized.Some? then leSized else largest;
  }

  lemma {:induction false} BestExactStays(formats: Formats, want: AdvertisedFormat -> bool, k: nat)
    requires k <= |formats|
    requires Best(formats[..k], want).Some? && Exact(Best(formats[..k], want).value)
    ensures Best(formats, want) == Best(formats[..k], want)
  {
    if k == |formats| {
      assert formats[..k] == formats;
    } else {
      var n := |formats| - 1;
      assert formats[..n][..k] == formats[..k];
      BestExactStays(formats[..n], want, k);
    }
  }

  datatype DefaultPick = DefaultPick(mode: Mode, width: int, height: int, fps: int)

  function FpsOf(f: AdvertisedFormat): int {
    if f.maxFps > 0.0 then (if f.maxFps < 30.0 then f.maxFps else 30.0).Floor else 30
  }

  function PickOf(mode: Mode, f: AdvertisedFormat): DefaultPick {
    DefaultPick(mode, f.width, f.height, FpsOf(f))
  }

  function PickDefault(formats: Formats): DefaultPick {
    if Best(formats, IsMjpeg).Some? then PickOf(TranscodeMjpegToH264, Best(formats, IsMjpeg).value)
    else if Best(formats, IsRaw).Some? then PickOf(TranscodeRawToH264, Best(formats, IsRaw).value)
    else DefaultPick(TranscodeMjpegToH264, PREF_W, PREF_H, 30)
  }

  method PickDefaultFromFormats(formats: Formats) returns (d: DefaultPick)
    ensures d == PickDefault(formats)
  {
    d := DefaultPick(TranscodeMjpegToH264, PREF_W, PREF_H, 30);
    if formats == [] { return; }
    var m := PickBest(formats, IsMjpeg);
    if m.Some? { return PickOf(TranscodeMjpegToH264, m.value); }
    m := PickBest(formats, IsRaw);
    if m.Some? { return PickOf(TranscodeRawToH264, m.value); }
  }

  /** Row `i` is wanted, no wanted row is better, and every earlier one is worse. */
  ghost predicate FirstBest(formats: Formats, want: AdvertisedFormat -> bool, i: nat) {
    && i < |formats| && want(formats[i])
    && (forall j | 0 <= j < |formats| && want(formats[j]) :: !Better(formats[j], formats[i]))
    && (forall j | 0 <= j < i && want(formats[j]) :: Better(formats[i], formats[j]))
  }

  /** What beats a best one beats everything else, and is beaten by nothing. */
  lemma BetterIsOrder()
    ensures forall f :: !Better(f, f)
    ensures forall f, g, h | Better(f, g) && !Better(h, g) :: Better(f, h) && !Better(h, f)
  {
  }

  /** One more row: the first best row stays, or the new row takes over. */
  lemma FirstBestSnoc(front: Formats, f: AdvertisedFormat, want: AdvertisedFormat -> bool, i: nat)
    requires FirstBest(front, want, i)
    ensures FirstBest(front + [f], want, if want(f) && Better(f, front[i]) then |front| else i)
  {
    var all := front + [f];
    assert forall j | 0 <= j < |front| :: all[j] == front[j];
    BetterIsOrder();
    hide Better;
  }

  predicate Wanted(formats: Formats, want: AdvertisedFormat -> bool) {
    exists j :: 0 <= j < |formats| && want(formats[j])
  }

  lemma FirstWanted(front: Formats, f: AdvertisedFormat, want: AdvertisedFormat -> bool)
    requires !Wanted(front, want)
    ensures want(f) ==> Wanted(front + [f], want) && FirstBest(front + [f], want, |front|)
    ensures !want(f) ==> !Wanted(front + [f], want)
  {
    var all := front + [f];
    assert all[|front|] == f;
    assert forall j | 0 <= j < |front| :: all[j] == front[j];
    BetterIsOrder();
    hide Better;
  }

  lemma {:induction false} BestIsOptimal(formats: Formats, want: AdvertisedFormat -> bool)
    ensures if Wanted(formats, want)
            then exists i: nat :: FirstBest(formats, want, i) && Best(formats, want) == Some(formats[i])
            else Best(formats, want).None?
  {
    if formats != [] {
      var n := |formats| - 1;
      var front, f := formats[..n], formats[n];
      BestIsOptimal(front, want);
      assert formats == front + [f];
      FoldSnoc(Improve(want), None, front, f);
      if Wanted(front, want) {
        var i: nat :| FirstBest(front, want, i) && Best(front, want) == Some(front[i]);
        FirstBestSnoc(front, f, want, i);
        assert Wanted(formats, want) by { assert want(formats[i]); }
        hide FirstBest, Better, Wanted;
        assert FirstBest(formats, want, if want(f) && Better(f, front[i]) then n else i);
      } else {
        FirstWanted(front, f, want);
      }
    }
  }

  /** The pick is an advertised size of the preferred kind, and the best of that kind. */
  lemma PickIsOptimal(formats: Formats)
    ensures var d := PickDefault(formats);
      if Wanted(formats, IsMjpeg)
      then exists i: nat :: FirstBest(formats, IsMjpeg, i) && d == PickOf(TranscodeMjpegToH264, formats[i])
      else if Wanted(formats, IsRaw)
      then exists i: nat :: FirstBest(formats, IsRaw, i) && d == PickOf(TranscodeRawToH264, formats[i])
      else d == DefaultPick(TranscodeMjpegToH264, PREF_W, PREF_H, 30)
  {
    BestIsOptimal(formats, IsMjpeg);
    BestIsOptimal(formats, IsRaw);
  }

  predicate KeyOnly(a: Formats, b: Formats, want: AdvertisedFormat -> bool) {
    forall f, g | f in a && g in b && SameKey(f, g) :: want(f) == want(g)
  }

  lemma WantedTwin(a: Formats, b: Formats, want: AdvertisedFormat -> bool, f: AdvertisedFormat) returns (j: nat)
    requires SameKeys(a, b) && KeyOnly(a, b, want)
    requires f in a && want(f)
    ensures j < |b| && want(b[j]) && SameKey(f, b[j])
  {
    assert HasKey(b, f);
    var g :| g in b && SameKey(f, g);
    j :| 0 <= j < |b| && b[j] == g;
  }

  lemma BestWitness(formats: Formats, want: AdvertisedFormat -> bool) returns (i: nat)
    requires Best(formats, want).Some?
    ensures FirstBest(formats, want, i) && Best(formats, want) == Some(formats[i])
  {
    BestIsOptimal(formats, want);
    i :| FirstBest(formats, want, i) && Best(formats, want) == Some(formats[i]);
  }

  lemma SameKeySameRank(f: AdvertisedFormat, g: AdvertisedFormat, h: AdvertisedFormat)
    requires SameKey(f, g)
    ensures Better(f, h) == Better(g, h)
  {
  }

  lemma BestNotWorse(a: Formats, b: Formats, want: AdvertisedFormat -> bool)
    requires SameKeys(a, b) && KeyOnly(a, b, want)
    requires Best(a, want).Some?
    ensures Best(b, want).Some? && !Better(Best(a, want).value, Best(b, want).value)
  {
    var i := BestWitness(a, want);
    var j := WantedTwin(a, b, want, a[i]);
    BestIsOptimal(b, want);
    var k := BestWitness(b, want);
    SameKeySameRank(a[i], b[j], b[k]);
  }

  lemma BestDependsOnKeys(a: Formats, b: Formats, want: AdvertisedFormat -> bool)
    requires SameKeys(a, b) && SameKeys(b, a) && KeyOnly(a, b, want) && KeyOnly(b, a, want)
    ensures Best(a, want).Some? == Best(b, want).Some?
    ensures Best(a, want).Some? ==>
              var f, g := Best(a, want).value, Best(b, want).value;
              Class(f) == Class(g) && Area(f) == Area(g)
  {
    if Best(a, want).Some? { BestNotWorse(a, b, want); }
    if Best(b, want).Some? { BestNotWorse(b, a, want); }
  }

  /** Mode and area of the pick depend on the advertised tuples alone: not on
      their order, and not on repeated rows. */
  lemma PickDependsOnKeys(a: Formats, b: Formats)
    requires SameKeys(a, b)
    ensures var d, e := PickDefault(a), PickDefault(b);
      d.mode == e.mode && d.width * d.height == e.width * e.height
  {
    assert KeyOnly(a, b, IsMjpeg) && KeyOnly(b, a, IsMjpeg) && KeyOnly(a, b, IsRaw) && KeyOnly(b, a, IsRaw);
    BestDependsOnKeys(a, b, IsMjpeg);
    BestDependsOnKeys(a, b, IsRaw);
  }

  // ----- The sizes offered to the user -----

  function SizeText(width: int, height: int): string {
    Decimal.ToString(width) + "x" + Decimal.ToString(height)
  }

  /** The formats that a mode, given by name, can take as its input. */
  predicate ModeTakes(mode: string, f: AdvertisedFormat) {
    if mode == "passthrough_mjpeg" || mode == "transcode_mjpeg_to_h264" then IsMjpeg(f)
    else if mode == "passthrough_h264" then f.kind == "compressed" && f.codec == "h264"
    else if mode == "transcode_raw_to_h264" || mode == "transcode_raw_to_mjpeg" then IsRaw(f)
    else true
  }

  function Texts(formats: Formats, mode: string): seq<string> {
    if formats == [] then []
    else (if ModeTakes(mode, formats[0]) then [SizeText(formats[0].width, formats[0].height)] else [])
         + Texts(formats[1..], mode)
  }

  function Distinct(ss: seq<string>): seq<string> {
    if ss == [] then [] else
      var front := Distinct(ss[..|ss| - 1]);
      if ss[|ss| - 1] in front then front else front + [ss[|ss| - 1]]
  }

  function Wrap32(n: int): int {
    (n + 0x8000_0000) % 0x1_0000_0000 - 0x8000_0000
  }

  function SortKey(s: string): int {
    var x := Lines.Find(s, 'x');
    var w := Decimal.Stoi(s[..x]).GetOr(0);
    var h := Decimal.Stoi(if x == |s| then "" else s[x + 1..]).GetOr(0);
    Wrap32(w * 10000 + h)
  }

  function AvailableResolutions(formats: Formats, mode: string): seq<string> {
    OrderBy(SortKey, Distinct(Texts(formats, mode)))
  }

  predicate NoRepeats(ss: seq<string>) {
    forall i, j | 0 <= i < j < |ss| :: ss[i] != ss[j]
  }

  lemma {:induction false} TextsMembers(formats: Formats, mode: string, s: string)
    ensures s in Texts(formats, mode) <==>
      exists i :: 0 <= i < |formats| && ModeTakes(mode, formats[i]) && s == SizeText(formats[i].width, formats[i].height)
  {
    if formats != [] {
      TextsMembers(formats[1..], mode, s);
      assert forall i | 1 <= i < |formats| :: formats[i] == formats[1..][i - 1];
    }
  }

  lemma {:induction false} DistinctMembers(ss: seq<string>)
    ensures NoRepeats(Distinct(ss))
    ensures forall s :: s in Distinct(ss) <==> s in ss
  {
    if ss != [] {
      DistinctMembers(ss[..|ss| - 1]);
      assert ss == ss[..|ss| - 1] + [ss[|ss| - 1]];
    }
  }

  lemma SizeSortKey(width: int, height: int)
    requires Decimal.IsInt32(width) && Decimal.IsInt32(height)
    ensures SortKey(SizeText(width, height)) == Wrap32(width * 10000 + height)
  {
    var w, h := Decimal.ToString(width), Decimal.ToString(height);
    Decimal.StoiToString(width);
    Decimal.StoiToString(height);
    Decimal.ToStringChars(width);
    Lines.FindAfter(w, 'x', h);
    var s := SizeText(width, height);
    assert s == w + ['x'] + h;
    assert s[..|w|] == w && s[|w| + 1..] == h;
  }

  /** The list offers each size that the mode can take, once, and nothing else, in key order. */
  lemma ResolutionsAreExact(formats: Formats, mode: string, s: string)
    ensures var r := AvailableResolutions(formats, mode);
      && SortedBy(SortKey, r)
      && (s in r <==> exists i :: 0 <= i < |formats| && ModeTakes(mode, formats[i])
                                  && s == SizeText(formats[i].width, formats[i].height))
      && multiset(r)[s] <= 1
  {
    var t := Texts(formats, mode);
    TextsMembers(formats, mode, s);
    DistinctMembers(t);
    OrderBySorts(SortKey, Distinct(t));
    assert s in AvailableResolutions(formats, mode) <==> s in multiset(Distinct(t));
    NoRepeatsMultiset(Distinct(t), s);
  }

  lemma {:induction false} NoRepeatsMultiset(ss: seq<string>, s: string)
    requires NoRepeats(ss)
    ensures multiset(ss)[s] <= 1
  {
    if ss != [] {
      var n := |ss| - 1;
      NoRepeatsMultiset(ss[..n], s);
      assert ss == ss[..n] + [ss[n]];
      assert s == ss[n] ==> s !in ss[..n];
    }
  }

  /** When the camera offers Motion JPEG or raw video, the default size is among
      those that the user is offered for the default mode, also after the rows
      were sorted and made unique. */
  lemma PickIsOffered(formats: Formats, listed: Formats)
    requires SameKeys(formats, listed)
    requires exists i :: 0 <= i < |formats| && (IsMjpeg(formats[i]) || IsRaw(formats[i]))
    ensures var d := PickDefault(formats);
      SizeText(d.width, d.height) in AvailableResolutions(listed, ModeName(d.mode))
  {
    var d := PickDefault(formats);
    PickIsOptimal(formats);
    forall f ensures ModeTakes("transcode_mjpeg_to_h264", f) == IsMjpeg(f)
                  && ModeTakes("transcode_raw_to_h264", f) == IsRaw(f) {
      ModeTakesInput(f);
    }
    if d.mode == TranscodeMjpegToH264 {
      SizeIsOffered(formats, listed, d, IsMjpeg);
    } else {
      SizeIsOffered(formats, listed, d, IsRaw);
    }
  }

  lemma ModeTakesInput(f: AdvertisedFormat)
    ensures ModeTakes("transcode_mjpeg_to_h264", f) == IsMjpeg(f)
    ensures ModeTakes("transcode_raw_to_h264", f) == IsRaw(f)
  {
    assert |"transcode_raw_to_h264"| == 21 && |"transcode_mjpeg_to_h264"| == 23;
  }

  lemma SizeIsOffered(formats: Formats, listed: Formats, d: DefaultPick, want: AdvertisedFormat -> bool)
    requires SameKeys(formats, listed) && KeyOnly(formats, listed, want)
    requires exists i: nat :: FirstBest(formats, want, i) && d == PickOf(d.mode, formats[i])
    requires forall f :: ModeTakes(ModeName(d.mode), f) == want(f)
    ensures SizeText(d.width, d.height) in AvailableResolutions(listed, ModeName(d.mode))
  {
    var i: nat :| FirstBest(formats, want, i) && d == PickOf(d.mode, formats[i]);
    var j := WantedTwin(formats, listed, want, formats[i]);
    assert ModeTakes(ModeName(d.mode), listed[j]);
    ResolutionsAreExact(listed, ModeName(d.mode), SizeText(d.width, d.height));
  }

  // ----- In plain numbers -----

  predicate Offers(formats: Formats, want: AdvertisedFormat -> bool, f: AdvertisedFormat) {
    f in formats && want(f)
  }

  /** The row is the one to prefer among those wanted: 640x480 if it is there, or else
      the largest within that size, or else the largest of all. */
  ghost predicate Preferred(formats: Formats, want: AdvertisedFormat -> bool, r: AdvertisedFormat) {
    && Offers(formats, want, r)
    && ((exists f :: Offers(formats, want, f) && f.width == 640 && f.height == 480) ==> r.width == 640 && r.height == 480)
    && (forall f | Offers(formats, want, f) && f.width <= 640 && f.height <= 480 ::
          r.width <= 640 && r.height <= 480
          && ((r.width == 640 && r.height == 480) || f.width * f.height <= r.width * r.height))
    && (forall f | Offers(formats, want, f) ::
          (r.width <= 640 && r.height <= 480) || f.width * f.height <= r.width * r.height)
  }

  lemma FirstBestIsPreferred(formats: Formats, want: AdvertisedFormat -> bool, i: nat)
    requires FirstBest(formats, want, i)
    ensures Preferred(formats, want, formats[i])
  {
    forall f | Offers(formats, want, f) ensures !Better(f, formats[i]) {
      var j :| 0 <= j < |formats| && formats[j] == f;
    }
  }

  predicate CompressedMjpeg(f: AdvertisedFormat) {
    f.kind == "compressed" && f.codec == "mjpeg"
  }

  predicate Raw(f: AdvertisedFormat) {
    f.kind == "raw"
  }

  ghost predicate AnyOffered(formats: Formats, want: AdvertisedFormat -> bool) {
    exists f :: Offers(formats, want, f)
  }

  /** The pick has this mode, and the numbers of the row to prefer. */
  ghost predicate PickedFrom(d: DefaultPick, formats: Formats, want: AdvertisedFormat -> bool, mode: string) {
    ModeName(d.mode) == mode && exists r :: Preferred(formats, want, r) && Takes(d, r)
  }

  /** The pick is made of the Motion JPEG row to prefer, or without any of the raw row
      to prefer, at no more than 30 frames a second; without either it is fixed. */
  lemma PickInNumbers(formats: Formats)
    ensures var d := PickDefault(formats);
      if AnyOffered(formats, CompressedMjpeg) then PickedFrom(d, formats, CompressedMjpeg, "transcode_mjpeg_to_h264")
      else if AnyOffered(formats, Raw) then PickedFrom(d, formats, Raw, "transcode_raw_to_h264")
      else ModeName(d.mode) == "transcode_mjpeg_to_h264" && d.width == 640 && d.height == 480 && d.fps == 30
  {
    var d := PickDefault(formats);
    PickIsOptimal(formats);
    WantedIs(formats, IsMjpeg, CompressedMjpeg);
    WantedIs(formats, IsRaw, Raw);
    hide PickDefault, FirstBest, PickedFrom, AnyOffered, PickOf, Wanted, IsMjpeg, IsRaw, CompressedMjpeg, Raw;
    if AnyOffered(formats, CompressedMjpeg) {
      PickedFromBest(formats, IsMjpeg, CompressedMjpeg, TranscodeMjpegToH264, d);
    } else if AnyOffered(formats, Raw) {
      PickedFromBest(formats, IsRaw, Raw, TranscodeRawToH264, d);
    }
  }

  lemma PickedFromBest(formats: Formats, want: AdvertisedFormat -> bool, also: AdvertisedFormat -> bool, mode: Mode,
                       d: DefaultPick)
    requires forall f :: want(f) == also(f)
    requires exists i: nat :: FirstBest(formats, want, i) && d == PickOf(mode, formats[i])
    ensures PickedFrom(d, formats, also, ModeName(mode))
  {
    var i: nat :| FirstBest(formats, want, i) && d == PickOf(mode, formats[i]);
    FirstBestIsPreferred(formats, want, i);
    SamePreferred(formats, want, also, formats[i]);
    hide FirstBest, Preferred, ModeName;
    assert Takes(d, formats[i]);
  }

  lemma WantedIs(formats: Formats, want: AdvertisedFormat -> bool, also: AdvertisedFormat -> bool)
    requires forall f :: want(f) == also(f)
    ensures Wanted(formats, want) <==> AnyOffered(formats, also)
  {
    if Wanted(formats, want) {
      var j :| 0 <= j < |formats| && want(formats[j]);
      assert Offers(formats, also, formats[j]);
    }
    if AnyOffered(formats, also) {
      var f :| Offers(formats, also, f);
      var j :| 0 <= j < |formats| && formats[j] == f;
      assert want(formats[j]);
    }
  }

  lemma SamePreferred(formats: Formats, want: AdvertisedFormat -> bool, also: AdvertisedFormat -> bool,
                      r: AdvertisedFormat)
    requires (forall f :: want(f) == also(f)) && Preferred(formats, want, r)
    ensures Preferred(formats, also, r)
  {
    assert forall f :: Offers(formats, want, f) == Offers(formats, also, f);
  }

  /** The size of the row, and its highest frame rate, if it says one, up to 30. */
  predicate Takes(d: DefaultPick, r: AdvertisedFormat) {
    && d.width == r.width && d.height == r.height
    && (r.maxFps <= 0.0 || r.maxFps >= 30.0 ==> d.fps == 30)
    && (0.0 < r.maxFps < 30.0 ==> d.fps as real <= r.maxFps < d.fps as real + 1.0)
  }

  /** The sizes offered for a mode are those of the rows that its input comes from. */
  lemma OfferedForMode(formats: Formats, mode: string, s: string)
    ensures s in AvailableResolutions(formats, mode) <==>
      exists i :: 0 <= i < |formats| && InputOf(mode, formats[i])
                  && s == Decimal.ToString(formats[i].width) + "x" + Decimal.ToString(formats[i].height)
  {
    forall f ensures InputOf(mode, f) <==> ModeTakes(mode, f) { InputIsTaken(mode, f); }
    ResolutionsAreExact(formats, mode, s);
    hide AvailableResolutions, InputOf, ModeTakes, Decimal.ToString;
  }

  /** Whether a row can be the input of the mode of this name. */
  predicate InputOf(mode: string, f: AdvertisedFormat) {
    && (mode in {"passthrough_mjpeg", "transcode_mjpeg_to_h264"} ==> f.kind == "compressed" && f.codec == "mjpeg")
    && (mode in {"passthrough_h264"} ==> f.kind == "compressed" && f.codec == "h264")
    && (mode in {"transcode_raw_to_h264", "transcode_raw_to_mjpeg"} ==> f.kind == "raw")
  }

  lemma InputIsTaken(mode: string, f: AdvertisedFormat)
    ensures InputOf(mode, f) <==> ModeTakes(mode, f)
  {
    assert |"passthrough_mjpeg"| == 17 && |"passthrough_h264"| == 16 && |"transcode_mjpeg_to_h264"| == 23;
    assert |"transcode_raw_to_h264"| == 21 && |"transcode_raw_to_mjpeg"| == 22;
  }

  /** The key of a size text, as 32-bit arithmetic leaves it. */
  lemma SizeKeyWraps(width: int, height: int)
    requires Decimal.IsInt32(width) && Decimal.IsInt32(height)
    ensures var key := SortKey(Decimal.ToString(width) + "x" + Decimal.ToString(height));
      -2147483648 <= key <= 2147483647 && (key - (width * 10000 + height)) % 4294967296 == 0
  {
    SizeSortKey(width, height);
    hide SortKey, Decimal.ToString;
    WrapIs(width * 10000 + height);
  }

  lemma WrapIs(n: int)
    ensures -2147483648 <= Wrap32(n) <= 2147483647 && (Wrap32(n) - n) % 4294967296 == 0
  {
    var m := n + 0x8000_0000;
    assert Wrap32(n) - n == -(m / 0x1_0000_0000) * 0x1_0000_0000;
  }

  /** Rows are listed by kind, then codec, pixel format, width and height. */
  lemma KeyDecides(a: AdvertisedFormat, b: AdvertisedFormat)
    ensures a.kind != b.kind ==> (KeyLess(a, b) <==> TextLess(a.kind, b.kind))
    ensures a.kind == b.kind && a.codec != b.codec ==> (KeyLess(a, b) <==> TextLess(a.codec, b.codec))
    ensures a.kind == b.kind && a.codec == b.codec && a.pixFmt != b.pixFmt ==>
      (KeyLess(a, b) <==> TextLess(a.pixFmt, b.pixFmt))
    ensures a.kind == b.kind && a.codec == b.codec && a.pixFmt == b.pixFmt ==>
      (KeyLess(a, b) <==> a.width < b.width || (a.width == b.width && a.height < b.height))
  {
    TextOrder(a.kind, b.kind, a.kind);
    TextOrder(a.codec, b.codec, a.codec);
    TextOrder(a.pixFmt, b.pixFmt, a.pixFmt);
  }

  /** Texts are compared at the first place where they differ. */
  lemma {:induction false} FirstDifferenceDecides(p: string, a: string, b: string)
    ensures b != "" ==> TextLess(p, p + b) && !TextLess(p + b, p)
    ensures a != "" && b != "" && a[0] != b[0] ==> (TextLess(p + a, p + b) <==> a[0] < b[0])
  {
    if p == "" {
      assert p + a == a && p + b == b;
    } else {
      assert (p + a)[1..] == p[1..] + a && (p + b)[1..] == p[1..] + b;
      FirstDifferenceDecides(p[1..], a, b);
    }
  }
}

/** Reading ffmpeg's device list, with each line already classified by its shape. */
module DeviceList {

  datatype Kind = Video | Audio | Neither

  datatype Line = Declaration(name: string, kind: Kind) | AlternativeName(name: string) | Other

  datatype CameraDevice = CameraDevice(friendlyName: string, altName: string)

  /** The first alternative name before the next declaration of any kind; "" if there is none. */
  function FirstAlternative(lines: seq<Line>): string {
    if lines == [] || lines[0].Declaration? then ""
    else if lines[0].AlternativeName? then lines[0].name
    else FirstAlternative(lines[1..])
  }

  predicate IsVideo(line: Line) {
    line.Declaration? && line.kind == Video
  }

  /** The video declarations in order, each with its alternative name. */
  function Devices(lines: seq<Line>): seq<CameraDevice> {
    if lines == [] then []
    else (if IsVideo(lines[0]) then [CameraDevice(lines[0].name, FirstAlternative(lines[1..]))] else [])
         + Devices(lines[1..])
  }

  predicate AllOther(lines: seq<Line>) {
    forall i | 0 <= i < |lines| :: lines[i].Other?
  }

  /** The latest declaration is of a video device, and no alternative name has come since. */
  predicate AwaitsName(lines: seq<Line>) {
    exists i | 0 <= i < |lines| :: IsVideo(lines[i]) && AllOther(lines[i + 1..])
  }

  lemma {:induction false} FirstAlternativeSnoc(lines: seq<Line>, line: Line)
    ensures FirstAlternative(lines + [line]) ==
      if AllOther(lines) && line.AlternativeName? then line.name else FirstAlternative(lines)
  {
    if lines != [] {
      assert (lines + [line])[1..] == lines[1..] + [line];
      FirstAlternativeSnoc(lines[1..], line);
      assert AllOther(lines) <==> lines[0].Other? && AllOther(lines[1..]);
    }
  }

  lemma AwaitsNameCons(lines: seq<Line>)
    requires lines != []
    ensures AwaitsName(lines) <==> (IsVideo(lines[0]) && AllOther(lines[1..])) || AwaitsName(lines[1..])
  {
    assert lines[0 + 1..] == lines[1..];
    if AwaitsName(lines) {
      var i :| 0 <= i < |lines| && IsVideo(lines[i]) && AllOther(lines[i + 1..]);
      if i > 0 {
        assert lines[1..][i - 1] == lines[i] && lines[1..][i - 1 + 1..] == lines[i + 1..];
      }
    }
    if AwaitsName(lines[1..]) {
      var i :| 0 <= i < |lines| - 1 && IsVideo(lines[1..][i]) && AllOther(lines[1..][i + 1..]);
      assert lines[i + 1] == lines[1..][i] && lines[i + 1 + 1..] == lines[1..][i + 1..];
    }
  }

  /** What one more line makes of the devices found so far. */
  function Extended(found: seq<CameraDevice>, awaits: bool, line: Line): seq<CameraDevice> {
    if IsVideo(line) then found + [CameraDevice(line.name, "")]
    else if line.AlternativeName? && awaits && found != [] then
      found[..|found| - 1] + [found[|found| - 1].(altName := line.name)]
    else found
  }

  /** One more line: a new device, a name for the latest one, or nothing. */
  lemma {:induction false} DevicesSnoc(lines: seq<Line>, line: Line)
    ensures AwaitsName(lines) ==> Devices(lines) != []
    ensures Devices(lines + [line]) == Extended(Devices(lines), AwaitsName(lines), line)
  {
    if lines == [] {
      assert [line][1..] == [];
    } else {
      var rest := lines[1..];
      assert (lines + [line])[1..] == rest + [line];
      DevicesSnoc(rest, line);
      FirstAlternativeSnoc(rest, line);
      AwaitsNameCons(lines);
      if AllOther(rest) { OnlyOtherLines(rest); }
      hide AwaitsName, AllOther, FirstAlternative;
      if IsVideo(lines[0]) {
        ExtendedAfter(CameraDevice(lines[0].name, FirstAlternative(rest)), Devices(rest), AwaitsName(rest), line);
      }
    }
  }

  lemma ExtendedAfter(first: CameraDevice, found: seq<CameraDevice>, awaits: bool, line: Line)
    ensures !awaits || found != [] || IsVideo(line) ==>
      Extended([first] + found, awaits, line) == [first] + Extended(found, awaits, line)
    ensures line.AlternativeName? && found == [] ==>
      Extended([first] + found, true, line) == [first.(altName := line.name)]
  {
  }

  lemma {:induction false} OnlyOtherLines(lines: seq<Line>)
    requires AllOther(lines)
    ensures Devices(lines) == [] && !AwaitsName(lines) && FirstAlternative(lines) == ""
  {
    if lines != [] { OnlyOtherLines(lines[1..]); }
  }

  lemma AllOtherSnoc(lines: seq<Line>, line: Line)
    ensures AllOther(lines + [line]) <==> AllOther(lines) && line.Other?
  {
    var all := lines + [line];
    assert all[|lines|] == line;
    if AllOther(all) {
      forall i | 0 <= i < |lines| ensures lines[i].Other? { assert all[i].Other?; }
    }
  }

  lemma RestSnoc(lines: seq<Line>, line: Line, i: nat)
    requires i < |lines|
    ensures (lines + [line])[i] == lines[i]
    ensures AllOther((lines + [line])[i + 1..]) <==> AllOther(lines[i + 1..]) && line.Other?
  {
    hide AllOther;
    assert (lines + [line])[i + 1..] == lines[i + 1..] + [line];
    AllOtherSnoc(lines[i + 1..], line);
  }

  lemma AwaitsNameSnoc(lines: seq<Line>, line: Line)
    ensures AwaitsName(lines + [line]) <==> IsVideo(line) || (line.Other? && AwaitsName(lines))
  {
    var all := lines + [line];
    assert all[|lines|] == line && all[|lines| + 1..] == [] && AllOther([]);
    hide AllOther;
    if AwaitsName(all) {
      var i :| 0 <= i < |all| && IsVideo(all[i]) && AllOther(all[i + 1..]);
      if i < |lines| { RestSnoc(lines, line, i); }
    }
    if line.Other? && AwaitsName(lines) {
      var i :| 0 <= i < |lines| && IsVideo(lines[i]) && AllOther(lines[i + 1..]);
      RestSnoc(lines, line, i);
    }
  }

  method ParseFfmpegDshowList(lines: seq<Line>) returns (out: seq<CameraDevice>)
    ensures out == Devices(lines)
  {
    out := [];
    var lastWasVideo := false;
    for i := 0 to |lines|
      invariant out == Devices(lines[..i]) && lastWasVideo == AwaitsName(lines[..i])
    {
      DevicesSnoc(lines[..i], lines[i]);
      AwaitsNameSnoc(lines[..i], lines[i]);
      assert lines[..i + 1] == lines[..i] + [lines[i]];
      if lines[i].Declaration? {
        if lines[i].kind == Video {
          out := out + [CameraDevice(lines[i].name, "")];
          lastWasVideo := true;
        } else {
          lastWasVideo := false;
        }
      } else if lastWasVideo && out != [] && lines[i].AlternativeName? {
        out := out[..|out| - 1] + [out[|out| - 1].(altName := lines[i].name)];
        lastWasVideo := false;
      }
    }
    assert lines[..|lines|] == lines;
  }

  /** How many lines declare a video device. */
  function Videos(lines: seq<Line>): nat {
    if lines == [] then 0
    else (if lines[0].Declaration? && lines[0].kind == Video then 1 else 0) + Videos(lines[1..])
  }

  /** How many lines at the front are about neither a device nor a name. */
  function OthersAhead(lines: seq<Line>): (j: nat)
    ensures j <= |lines| && AllOther(lines[..j]) && (j < |lines| ==> !lines[j].Other?)
  {
    if lines == [] || !lines[0].Other? then 0
    else
      var j := OthersAhead(lines[1..]);
      assert lines[..j + 1] == [lines[0]] + lines[1..][..j];
      j + 1
  }

  lemma {:induction false} AlternativeMeaning(lines: seq<Line>)
    ensures var j := OthersAhead(lines);
      FirstAlternative(lines) == if j < |lines| && lines[j].AlternativeName? then lines[j].name else ""
  {
    if lines != [] && lines[0].Other? { AlternativeMeaning(lines[1..]); }
  }

  /** Each video declaration yields one device, in order, under its own name; and
      the device's alternative name stands on the first line after the declaration
      that is not about something else, or is empty if that line declares another
      device or there is none. So the names of audio devices never leak. */
  lemma {:induction false} DevicesMeaning(lines: seq<Line>, i: nat)
    requires i < |lines| && lines[i].Declaration? && lines[i].kind == Video
    ensures |Devices(lines)| == Videos(lines) && Videos(lines[..i]) < Videos(lines)
    ensures var d := Devices(lines)[Videos(lines[..i])];
      && d.friendlyName == lines[i].name
      && var after := lines[i + 1..];
      var j := OthersAhead(after);
      d.altName == if j < |after| && after[j].AlternativeName? then after[j].name else ""
  {
    hide OthersAhead, AllOther, FirstAlternative;
    VideosCount(lines);
    AlternativeMeaning(lines[i + 1..]);
    if i == 0 {
      assert lines[..0] == [];
    } else {
      DevicesMeaning(lines[1..], i - 1);
      assert lines[..i][0] == lines[0] && lines[..i][1..] == lines[1..][..i - 1];
      assert lines[1..][i - 1 + 1..] == lines[i + 1..];
    }
  }

  lemma {:induction false} VideosCount(lines: seq<Line>)
    ensures |Devices(lines)| == Videos(lines)
  {
    if lines != [] { VideosCount(lines[1..]); }
  }
}

/** The table of source locations as a function on its state, and the plain table it stands for: a map
    from handles to file, line and column. */
module LinemapModel {
  import opened Wrappers
  import opened Uleb128

  const NO_HANDLE: nat := 0xffff_ffff

  datatype Flc = Flc(fidx: nat, line: nat, column: nat)
  datatype Segment = Segment(lo: nat, hi: nat, fidx: nat)

  // `first` and `last` are the handles of the segment being built, NO_HANDLE when it has none.
  datatype State = State(
    files: seq<string>,
    fmap: map<string, nat>,
    segments: seq<Segment>,
    bytes: seq<Byte>,
    fidx: nat,
    line: U32,
    first: nat,
    last: nat,
    inFile: bool)

  // The location of unknown things has handle 0, that of predeclared things handle 2.
  const UNKNOWN: nat := 0
  const BUILTIN: nat := 2

  function Begin(): State {
    State(["", "<built-in>"], map[], [Segment(UNKNOWN, UNKNOWN, 0), Segment(BUILTIN, BUILTIN, 1)],
          Uleb(0) + Uleb(0) + (Uleb(1) + Uleb(1)), 0, 0xffff_ffff, NO_HANDLE, NO_HANDLE, false)
  }

  function CloseSegment(s: State): State {
    s.(segments := if s.first != NO_HANDLE then s.segments + [Segment(s.first, s.last, s.fidx)] else s.segments,
       first := NO_HANDLE, last := NO_HANDLE)
  }

  function StartFile(s: State, name: string, line: U32): State {
    var s1 := CloseSegment(s);
    if name in s.fmap then s1.(fidx := s.fmap[name], line := line, inFile := true)
    else s1.(files := s.files + [name], fmap := s.fmap[name := |s.files|], fidx := |s.files|, line := line,
      inFile := true)
  }

  function StartLine(s: State, line: U32): State {
    s.(line := line)
  }

  function Stop(s: State): State {
    s.(inFile := false)
  }

  function GetLocation(s: State, column: U32): State {
    var h := |s.bytes|;
    s.(bytes := s.bytes + Uleb(s.line) + Uleb(column), first := if s.first == NO_HANDLE then h else s.first, last := h)
  }

  // The first segment that does not end before h.
  function LowerBound(segs: seq<Segment>, h: nat): (k: nat)
    ensures k <= |segs|
  {
    if segs == [] || segs[0].hi >= h then 0 else 1 + LowerBound(segs[1..], h)
  }

  function Decode(s: State, h: nat): Option<Flc> {
    if h > |s.bytes| then None
    else
      match Read128(s.bytes[h..])
      case Truncated => None
      case Number(line, n) =>
        match Read128(s.bytes[h + n..])
        case Truncated => None
        case Number(column, _) =>
          var k := LowerBound(s.segments, h);
          Some(Flc(if k == |s.segments| then s.fidx else s.segments[k].fidx, line, column))
  }

  // ----- the plain table -----

  datatype Place = Place(file: string, line: nat, column: nat)

  datatype Plain = Plain(file: string, line: U32, inFile: bool, places: map<nat, Place>)

  datatype Op = Start(name: string, line: U32) | Line(line: U32) | Locate(column: U32) | Halt

  function Fresh(): Plain {
    Plain("", 0xffff_ffff, false, map[UNKNOWN := Place("", 0, 0), BUILTIN := Place("<built-in>", 1, 1)])
  }

  // h is the handle issued, if one is.
  function PlainStep(p: Plain, op: Op, h: nat): Plain {
    match op
    case Start(name, line) => Plain(name, line, true, p.places)
    case Line(line) => p.(line := line)
    case Locate(column) => p.(places := p.places[h := Place(p.file, p.line, column)])
    case Halt => p.(inFile := false)
  }

  function Step(s: State, op: Op): State {
    match op
    case Start(name, line) => StartFile(s, name, line)
    case Line(line) => StartLine(s, line)
    case Locate(column) => GetLocation(s, column)
    case Halt => Stop(s)
  }

  // Locations are asked for only inside a file, and while handles last.
  predicate Legal(s: State, op: Op) {
    op.Locate? ==> s.inFile && |s.bytes| < NO_HANDLE
  }

  predicate LegalRun(s: State, ops: seq<Op>)
    decreases |ops|
  {
    ops == [] || (Legal(s, ops[0]) && LegalRun(Step(s, ops[0]), ops[1..]))
  }

  function Run(s: State, ops: seq<Op>): State
    decreases |ops|
  {
    if ops == [] then s else Run(Step(s, ops[0]), ops[1..])
  }

  // The plain table after the run; the handles are those the run issues.
  function PlainRun(p: Plain, s: State, ops: seq<Op>): Plain
    decreases |ops|
  {
    if ops == [] then p else PlainRun(PlainStep(p, ops[0], |s.bytes|), Step(s, ops[0]), ops[1..])
  }

  // ----- what every step keeps -----

  ghost predicate Open(s: State) {
    s.first != NO_HANDLE
  }

  ghost predicate FilesRight(s: State, file: string) {
    && 2 <= |s.files| && s.fidx < |s.files| && s.files[s.fidx] == file
    && s.files[0] == "" && s.files[1] == "<built-in>"
    && (forall name | name in s.fmap :: s.fmap[name] < |s.files| && s.files[s.fmap[name]] == name)
  }

  // The segments are apart, in order, and before the one being built.
  ghost predicate SegmentsRight(s: State) {
    && (forall i | 0 <= i < |s.segments| ::
          s.segments[i].lo <= s.segments[i].hi < |s.bytes| && s.segments[i].fidx < |s.files|)
    && (forall i, j | 0 <= i < j < |s.segments| :: s.segments[i].hi < s.segments[j].lo)
    && (if Open(s) then
          && s.first <= s.last < |s.bytes|
          && (forall i | 0 <= i < |s.segments| :: s.segments[i].hi < s.first)
        else s.last == NO_HANDLE)
  }

  // The bytes at h are those of the place, and h lies in a segment of its file.
  ghost predicate Placed(s: State, h: nat, p: Place) {
    h < |s.bytes| && Uleb(p.line) + Uleb(p.column) <= s.bytes[h..] && InSegment(s, h, p.file)
  }

  ghost predicate InSegment(s: State, h: nat, file: string) {
    || (exists i :: 0 <= i < |s.segments| && s.segments[i].lo <= h <= s.segments[i].hi
                    && s.segments[i].fidx < |s.files| && s.files[s.segments[i].fidx] == file)
    || (Open(s) && s.first <= h <= s.last && s.fidx < |s.files| && s.files[s.fidx] == file)
  }

  ghost predicate Inv(s: State, p: Plain) {
    && FilesRight(s, p.file) && SegmentsRight(s) && s.line == p.line && s.inFile == p.inFile
    && forall h | h in p.places :: Placed(s, h, p.places[h])
  }

  lemma BeginRight()
    ensures Inv(Begin(), Fresh())
  {
    var s := Begin();
    assert s.bytes == [0, 0, 1, 1];
    assert s.segments[0].lo == 0 && s.segments[1].lo == 2;
    assert s.bytes[0..] == [0, 0, 1, 1] && s.bytes[2..] == [1, 1];
    assert Uleb(0) + Uleb(0) == [0, 0] && Uleb(1) + Uleb(1) == [1, 1];
  }

  lemma PlacedClosed(s: State, h: nat, p: Place)
    requires Placed(s, h, p) && s.fidx < |s.files|
    ensures Placed(CloseSegment(s), h, p)
  {
    var t := CloseSegment(s);
    if i :| 0 <= i < |s.segments| && s.segments[i].lo <= h <= s.segments[i].hi
            && s.segments[i].fidx < |s.files| && s.files[s.segments[i].fidx] == p.file {
      assert t.segments[i] == s.segments[i];
    } else {
      assert t.segments[|s.segments|] == Segment(s.first, s.last, s.fidx);
    }
  }

  lemma PlacedGrown(s: State, t: State, h: nat, p: Place)
    requires Placed(s, h, p) && s.segments == t.segments && s.files <= t.files && s.bytes <= t.bytes
    requires Open(s) ==> t.first == s.first && t.last >= s.last && t.fidx == s.fidx
    ensures Placed(t, h, p)
  {
    assert s.bytes[h..] <= t.bytes[h..];
    if i :| 0 <= i < |s.segments| && s.segments[i].lo <= h <= s.segments[i].hi
            && s.segments[i].fidx < |s.files| && s.files[s.segments[i].fidx] == p.file {
      assert t.segments[i] == s.segments[i];
    }
  }

  lemma StepKeeps(s: State, p: Plain, op: Op)
    requires Inv(s, p) && Legal(s, op)
    ensures Inv(Step(s, op), PlainStep(p, op, |s.bytes|))
  {
    match op
    case Start(name, line) => StartKeeps(s, p, name, line);
    case Line(line) => AlikeKeeps(s, p, StartLine(s, line));
    case Locate(column) => LocateKeeps(s, p, column);
    case Halt => AlikeKeeps(s, p, Stop(s));
  }

  lemma AlikeKeeps(s: State, p: Plain, t: State)
    requires Inv(s, p) && t == s.(line := t.line, inFile := t.inFile)
    ensures Inv(t, p.(line := t.line, inFile := t.inFile))
  {
    hide Placed;
    forall h | h in p.places
      ensures Placed(t, h, p.places[h])
    {
      PlacedGrown(s, t, h, p.places[h]);
    }
  }

  lemma StartKeeps(s: State, p: Plain, name: string, line: U32)
    requires Inv(s, p)
    ensures Inv(StartFile(s, name, line), Plain(name, line, true, p.places))
  {
    hide Placed, FilesRight, SegmentsRight;
    var c := CloseSegment(s);
    var t := StartFile(s, name, line);
    StartKeepsTables(s, p.file, name, line);
    forall h | h in p.places
      ensures Placed(t, h, p.places[h])
    {
      PlacedClosed(s, h, p.places[h]);
      PlacedGrown(c, t, h, p.places[h]);
    }
  }

  lemma StartKeepsTables(s: State, file: string, name: string, line: U32)
    requires FilesRight(s, file) && SegmentsRight(s)
    ensures s.fidx < |s.files|
    ensures var t := StartFile(s, name, line); FilesRight(t, name) && SegmentsRight(t)
  {
    hide SegmentsRight, FilesRight;
    FilesIn(s, file);
    CloseKeeps(s);
    FilesKeep(s, file, name, line);
    SameSegments(CloseSegment(s), StartFile(s, name, line));
  }

  lemma FilesIn(s: State, file: string)
    requires FilesRight(s, file)
    ensures s.fidx < |s.files|
  {
  }

  lemma FilesKeep(s: State, file: string, name: string, line: U32)
    requires FilesRight(s, file)
    ensures FilesRight(StartFile(s, name, line), name)
  {
  }

  lemma CloseKeeps(s: State)
    requires SegmentsRight(s) && s.fidx < |s.files|
    ensures SegmentsRight(CloseSegment(s))
  {
    var c := CloseSegment(s);
    assert forall i | 0 <= i < |s.segments| :: c.segments[i] == s.segments[i];
  }

  lemma SameSegments(s: State, t: State)
    requires SegmentsRight(s) && t.segments == s.segments && t.bytes == s.bytes && |s.files| <= |t.files|
    requires t.first == s.first && t.last == s.last
    ensures SegmentsRight(t)
  {
  }

  lemma LocateKeeps(s: State, p: Plain, column: U32)
    requires Inv(s, p) && |s.bytes| < NO_HANDLE
    ensures Inv(GetLocation(s, column), PlainStep(p, Locate(column), |s.bytes|))
  {
    hide Uleb;
    var t := GetLocation(s, column);
    var h0 := |s.bytes|;
    assert t.bytes[h0..] == Uleb(s.line) + Uleb(column);
    assert Placed(t, h0, Place(p.file, p.line, column));
    hide Placed;
    forall h | h in p.places
      ensures Placed(t, h, p.places[h])
    {
      PlacedGrown(s, t, h, p.places[h]);
    }
  }

  // ----- decoding -----

  // In a sorted table the search stops at the segment that holds the handle.
  lemma {:induction false} LowerBoundFinds(segs: seq<Segment>, h: nat, k: nat)
    requires k <= |segs| && (forall i | 0 <= i < k :: segs[i].hi < h) && (k < |segs| ==> h <= segs[k].hi)
    ensures LowerBound(segs, h) == k
    decreases k
  {
    if k > 0 {
      assert segs[0].hi < h;
      LowerBoundFinds(segs[1..], h, k - 1);
    }
  }

  lemma FileFound(s: State, h: nat, file: string)
    requires SegmentsRight(s) && InSegment(s, h, file)
    ensures var k := LowerBound(s.segments, h); var f := if k == |s.segments| then s.fidx else s.segments[k].fidx;
      f < |s.files| && s.files[f] == file
  {
    if i :| 0 <= i < |s.segments| && s.segments[i].lo <= h <= s.segments[i].hi
            && s.segments[i].fidx < |s.files| && s.files[s.segments[i].fidx] == file {
      LowerBoundFinds(s.segments, h, i);
    } else {
      LowerBoundFinds(s.segments, h, |s.segments|);
    }
  }

  lemma PlacedDecodes(s: State, h: nat, p: Place)
    requires SegmentsRight(s) && Placed(s, h, p)
    ensures var d := Decode(s, h);
      d.Some? && d.value.fidx < |s.files| && Place(s.files[d.value.fidx], d.value.line, d.value.column) == p
  {
    hide Uleb, Read128, LowerBound, SegmentsRight, InSegment;
    var rest := TwoParts(Uleb(p.line), Uleb(p.column), s.bytes, h);
    RoundTrip(p.line, Uleb(p.column) + rest);
    RoundTrip(p.column, rest);
    FileFound(s, h, p.file);
  }

  lemma TwoParts(a: seq<Byte>, b: seq<Byte>, bytes: seq<Byte>, h: nat) returns (rest: seq<Byte>)
    requires h <= |bytes| && a + b <= bytes[h..]
    ensures bytes[h..] == a + (b + rest) && h + |a| <= |bytes| && bytes[h + |a|..] == b + rest
  {
    rest := bytes[h..][|a + b|..];
    assert bytes[h..] == a + b + rest == a + (b + rest);
    assert bytes[h + |a|..] == bytes[h..][|a|..];
  }

  lemma {:induction false} RunKeeps(s: State, p: Plain, ops: seq<Op>)
    requires Inv(s, p) && LegalRun(s, ops)
    ensures Inv(Run(s, ops), PlainRun(p, s, ops))
    decreases |ops|
  {
    if ops != [] {
      StepKeeps(s, p, ops[0]);
      RunKeeps(Step(s, ops[0]), PlainStep(p, ops[0], |s.bytes|), ops[1..]);
    }
  }

  // After any run, every handle of the plain table decodes to its place.
  lemma EveryHandleDecodes(ops: seq<Op>, h: nat)
    requires LegalRun(Begin(), ops) && h in PlainRun(Fresh(), Begin(), ops).places
    ensures var s := Run(Begin(), ops); var d := Decode(s, h);
      && d.Some? && d.value.fidx < |s.files|
      && Place(s.files[d.value.fidx], d.value.line, d.value.column) == PlainRun(Fresh(), Begin(), ops).places[h]
  {
    BeginRight();
    RunKeeps(Begin(), Fresh(), ops);
    PlacedDecodes(Run(Begin(), ops), h, PlainRun(Fresh(), Begin(), ops).places[h]);
  }

  // A handle just issued is new, and the places of the earlier ones are kept for good.
  lemma {:induction false} PlacesStay(s: State, p: Plain, ops: seq<Op>, h: nat)
    requires Inv(s, p) && LegalRun(s, ops) && h in p.places
    ensures |s.bytes| !in p.places
    ensures h in PlainRun(p, s, ops).places && PlainRun(p, s, ops).places[h] == p.places[h]
    decreases |ops|
  {
    if ops != [] {
      StepKeeps(s, p, ops[0]);
      PlacesStay(Step(s, ops[0]), PlainStep(p, ops[0], |s.bytes|), ops[1..], h);
    }
  }

  // ----- what was current when a location was issued -----

  // The file current after the operations.
  function LastStart(ops: seq<Op>): Option<string> {
    if ops == [] then None
    else
      var later := LastStart(ops[1..]);
      if later.Some? then later else if ops[0].Start? then Some(ops[0].name) else None
  }

  // The line last set, by starting a file or by starting a line.
  function LastLine(ops: seq<Op>): Option<U32> {
    if ops == [] then None
    else
      var later := LastLine(ops[1..]);
      if later.Some? then later
      else if ops[0].Start? || ops[0].Line? then Some(ops[0].line)
      else None
  }

  // A legal run issues no location before a file is started.
  lemma {:induction false} StartedFirst(s: State, ops: seq<Op>, k: nat)
    requires LegalRun(s, ops) && k < |ops| && ops[k].Locate? && !s.inFile
    ensures LastStart(ops[..k]).Some? && LastLine(ops[..k]).Some? && FirstStart(ops).Some?
    decreases k
  {
    assert k > 0;
    assert ops[..k][1..] == ops[1..][..k - 1];
    if !ops[0].Start? { StartedFirst(Step(s, ops[0]), ops[1..], k - 1); }
  }

  // A location issued is for good in the file and on the line that were current then.
  lemma {:induction false} IssuedPlace(s: State, p: Plain, ops: seq<Op>, k: nat)
    requires Inv(s, p) && LegalRun(s, ops) && k < |ops| && ops[k].Locate?
    ensures var before := ops[..k]; var h := |Run(s, before).bytes|; var places := PlainRun(p, s, ops).places;
      h in places && places[h] == Place(
                                    match LastStart(before) case None => p.file case Some(name) => name,
                                    match LastLine(before) case None => p.line case Some(line) => line,
                                    ops[k].column)
    decreases |ops|
  {
    hide Inv;
    var s1, p1 := Step(s, ops[0]), PlainStep(p, ops[0], |s.bytes|);
    StepKeeps(s, p, ops[0]);
    if k == 0 {
      PlacesStay(s1, p1, ops[1..], |s.bytes|);
    } else {
      assert ops[..k][1..] == ops[1..][..k - 1];
      IssuedPlace(s1, p1, ops[1..], k - 1);
    }
  }

  // Whatever comes later, a location decodes to the file last started and the line last set before it
  // was issued, and to its own column.
  lemma IssuedDecodes(ops: seq<Op>, k: nat)
    requires LegalRun(Begin(), ops) && k < |ops| && ops[k].Locate?
    ensures var before := ops[..k]; var t := Run(Begin(), ops); var d := Decode(t, |Run(Begin(), before).bytes|);
      && d.Some? && d.value.fidx < |t.files| && d.value.column == ops[k].column
      && Some(t.files[d.value.fidx]) == LastStart(before) && LastLine(before) == Some(d.value.line)
  {
    hide Inv, Run, PlainRun, Decode, LegalRun;
    BeginRight();
    StartedFirst(Begin(), ops, k);
    IssuedPlace(Begin(), Fresh(), ops, k);
    EveryHandleDecodes(ops, |Run(Begin(), ops[..k]).bytes|);
  }

  // The two predefined locations stay what they are: handle 0 is nowhere, handle 2 is built in.
  lemma PredefinedDecode(ops: seq<Op>)
    requires LegalRun(Begin(), ops)
    ensures var t := Run(Begin(), ops); var u := Decode(t, 0); var b := Decode(t, 2);
      && u.Some? && u.value.fidx < |t.files| && t.files[u.value.fidx] == "" && u.value.line == u.value.column == 0
      && b.Some? && b.value.fidx < |t.files| && t.files[b.value.fidx] == "<built-in>"
      && b.value.line == b.value.column == 1
  {
    hide Inv, Run, PlainRun, Decode, LegalRun;
    BeginRight();
    PlacesStay(Begin(), Fresh(), ops, 0);
    PlacesStay(Begin(), Fresh(), ops, 2);
    EveryHandleDecodes(ops, 0);
    EveryHandleDecodes(ops, 2);
  }

  // ----- the initial file -----

  function InitialFile(s: State): string {
    if |s.files| < 3 then "" else s.files[2]
  }

  function FirstStart(ops: seq<Op>): (r: Option<string>)
    ensures r.Some? ==> ops != []
  {
    if ops == [] then None else if ops[0].Start? then Some(ops[0].name) else FirstStart(ops[1..])
  }

  // The place of the first operation that issues a location.
  function FirstLocate(ops: seq<Op>): (k: nat)
    ensures k <= |ops| && (k < |ops| ==> ops[k].Locate?) && forall i | 0 <= i < k :: !ops[i].Locate?
  {
    if ops == [] || ops[0].Locate? then 0 else 1 + FirstLocate(ops[1..])
  }

  // The initial file is the first started, whether or not a location in it is ever asked for.
  lemma {:induction false} InitialFileIsFirstStarted(s: State, ops: seq<Op>)
    requires s.fmap == map[] && |s.files| == 2
    ensures InitialFile(Run(s, ops)) == match FirstStart(ops) case None => "" case Some(name) => name
    ensures FirstStart(ops).Some? ==> |Run(s, ops).files| > 2
    decreases |ops|
  {
    if ops != [] {
      if ops[0].Start? { FilesGrow(Step(s, ops[0]), ops[1..]); }
      else { InitialFileIsFirstStarted(Step(s, ops[0]), ops[1..]); }
    }
  }

  lemma {:induction false} FilesGrow(s: State, ops: seq<Op>)
    ensures s.files <= Run(s, ops).files
    decreases |ops|
  {
    if ops != [] { FilesGrow(Step(s, ops[0]), ops[1..]); }
  }

  // What get_initial_file is described as, the file of the first location that was issued, it gives
  // exactly if that was issued while the first file started was the current one.
  lemma InitialFileExactly(ops: seq<Op>)
    requires LegalRun(Begin(), ops) && FirstLocate(ops) < |ops|
    ensures var before := ops[..FirstLocate(ops)]; var t := Run(Begin(), ops);
      var d := Decode(t, |Run(Begin(), before).bytes|);
      && d.Some? && d.value.fidx < |t.files|
      && (InitialFile(t) == t.files[d.value.fidx] <==> LastStart(before) == FirstStart(ops))
  {
    hide Inv, Run, PlainRun, Decode, LegalRun;
    StartedFirst(Begin(), ops, FirstLocate(ops));
    InitialFileIsFirstStarted(Begin(), ops);
    IssuedDecodes(ops, FirstLocate(ops));
  }

  // A file started and left again before any location is issued: it is the initial file, and every
  // location issued is in another.
  lemma InitialFileWithoutLocation(x: string, y: string)
    requires x != y
    ensures var ops := [Start(x, 1), Start(y, 1), Locate(1)]; var t := Run(Begin(), ops);
      && LegalRun(Begin(), ops) && FirstLocate(ops) == 2 && InitialFile(t) == x
      && var d := Decode(t, |Run(Begin(), ops[..2]).bytes|);
         d.Some? && d.value.fidx < |t.files| && t.files[d.value.fidx] == y
  {
    hide Decode;
    var ops := [Start(x, 1), Start(y, 1), Locate(1)];
    assert ops[1..] == [Start(y, 1), Locate(1)] && ops[1..][1..] == [Locate(1)]
      && ops[..2] == [Start(x, 1), Start(y, 1)];
    assert LegalRun(Begin(), ops) by { XThenY(x, y); }
    assert FirstLocate([Locate(1)]) == 0 && FirstLocate(ops[1..]) == 1;
    InitialFileIsFirstStarted(Begin(), ops);
    IssuedDecodes(ops, 2);
    assert [Start(x, 1), Start(y, 1)][1..] == [Start(y, 1)];
    assert LastStart([Start(y, 1)]) == Some(y);
  }

  lemma XThenY(x: string, y: string)
    ensures LegalRun(Begin(), [Start(x, 1), Start(y, 1), Locate(1)])
  {
    var ops := [Start(x, 1), Start(y, 1), Locate(1)];
    assert ops[1..] == [Start(y, 1), Locate(1)] && ops[1..][1..] == [Locate(1)] && [Locate(1)][1..] == [];
    var s1 := Step(Begin(), ops[0]);
    var s2 := Step(s1, Start(y, 1));
    U32IsShort(0);
    U32IsShort(1);
    assert s2.inFile && |s2.bytes| == |Begin().bytes|;
    assert LegalRun(s2, [Locate(1)]);
    assert LegalRun(s1, ops[1..]);
  }
}

/** The table of source locations, kept in place: an append-only buffer of encoded lines and columns and a
    table of segments searched by halving, proved against the state functions of LinemapModel.dfy. */
module Linemap {
  import opened Wrappers
  import opened Uleb128
  import opened LinemapModel

  // The index std::lower_bound comes to in a table sorted by the ends of its segments.
  method FindSegment(segs: seq<Segment>, h: nat) returns (k: nat)
    requires forall i, j | 0 <= i < j < |segs| :: segs[i].hi <= segs[j].hi
    ensures k == LowerBound(segs, h)
  {
    k := 0;
    var count := |segs|;
    while count > 0
      invariant 0 <= count && k + count <= |segs|
      invariant forall i | 0 <= i < k :: segs[i].hi < h
      invariant forall i | k + count <= i < |segs| :: segs[i].hi >= h
    {
      var step := count / 2;
      if segs[k + step].hi < h {
        k, count := k + step + 1, count - step - 1;
      } else {
        count := step;
      }
    }
    LowerBoundFinds(segs, h, k);
  }

  class LlvmLinemap {
    var files: seq<string>
    var fmap: map<string, nat>
    var segments: seq<Segment>
    var encodedLocations: seq<Byte>
    var currentFidx: nat
    var currentLine: U32
    var firsthandle: nat
    var lasthandle: nat
    var inFile: bool
    ghost var plain: Plain

    ghost function View(): State
      reads this
    {
      State(files, fmap, segments, encodedLocations, currentFidx, currentLine, firsthandle, lasthandle, inFile)
    }

    ghost predicate Valid()
      reads this
    {
      Inv(View(), plain)
    }

    constructor ()
      ensures Valid() && View() == Begin() && plain == Fresh()
    {
      files, fmap, segments, encodedLocations := ["", "<built-in>"], map[], [], [];
      currentFidx, currentLine := 0, 0xffff_ffff;
      firsthandle, lasthandle, inFile := NO_HANDLE, NO_HANDLE, false;
      plain := Fresh();
      new;
      var unknownHandle := AddEncodedLocation(0, 0);
      var builtinHandle := AddEncodedLocation(1, 1);
      segments := segments + [Segment(unknownHandle, unknownHandle, 0)];
      segments := segments + [Segment(builtinHandle, builtinHandle, 1)];
      assert Uleb(0) == [0] && Uleb(1) == [1];
      assert encodedLocations == [0, 0, 1, 1] == Begin().bytes;
      assert View() == Begin();
      BeginRight();
    }

    // The bytes go through a small buffer, then onto the end of the array.
    method AddEncodedLocation(line: U32, column: U32) returns (handle: nat)
      modifies this`encodedLocations
      ensures handle == old(|encodedLocations|)
      ensures encodedLocations == old(encodedLocations) + Uleb(line) + Uleb(column)
    {
      U32IsShort(line);
      U32IsShort(column);
      var buf := new Byte[64];
      var l1 := EncodeULEB128(line, buf, 0);
      assert buf[..l1] == buf[0..0 + l1];
      var l2 := EncodeULEB128(column, buf, l1);
      var tot := l1 + l2;
      handle := |encodedLocations|;
      for i := 0 to tot
        invariant encodedLocations == old(encodedLocations) + buf[..i]
        invariant buf[..l1] == Uleb(line) && buf[l1..l1 + l2] == Uleb(column)
      {
        encodedLocations := encodedLocations + [buf[i]];
      }
      assert buf[..tot] == buf[..l1] + buf[l1..l1 + l2];
    }

    // Every handle of the plain table decodes to its place.
    method DecodeLocation(handle: nat) returns (r: Flc)
      requires Valid() && handle in plain.places
      ensures Decode(View(), handle) == Some(r)
      ensures r.fidx < |files| && Place(files[r.fidx], r.line, r.column) == plain.places[handle]
    {
      hide Uleb, FilesRight, InSegment;
      ghost var p := plain.places[handle];
      PlacedDecodes(View(), handle, p);
      assert handle < |encodedLocations|;
      var line, c1 := DecodeULEB128(encodedLocations, handle);
      var column, c2 := DecodeULEB128(encodedLocations, handle + c1);
      assert encodedLocations[handle + c1..] == encodedLocations[handle..][c1..];
      assert handle + c1 + c2 <= |encodedLocations|;
      var it := FindSegment(segments, handle);
      r := Flc(if it == |segments| then currentFidx else segments[it].fidx, line, column);
    }

    method StartFile(fileName: string, lineBegin: U32)
      requires Valid()
      modifies this
      ensures Valid() && View() == Step(old(View()), Start(fileName, lineBegin))
      ensures plain == Plain(fileName, lineBegin, true, old(plain.places))
    {
      hide Inv;
      StepKeeps(View(), plain, Start(fileName, lineBegin));
      if firsthandle != NO_HANDLE {
        segments := segments + [Segment(firsthandle, lasthandle, currentFidx)];
      }
      firsthandle := NO_HANDLE;
      lasthandle := NO_HANDLE;
      var fidx := |files|;
      if fileName in fmap {
        fidx := fmap[fileName];
      } else {
        files := files + [fileName];
        fmap := fmap[fileName := fidx];
      }
      currentFidx := fidx;
      currentLine := lineBegin;
      inFile := true;
      plain := Plain(fileName, lineBegin, true, plain.places);
    }

    method StartLine(lineno: U32)
      requires Valid()
      modifies this`currentLine, this`plain
      ensures Valid() && View() == Step(old(View()), Line(lineno))
      ensures plain == old(plain).(line := lineno)
    {
      StepKeeps(View(), plain, Line(lineno));
      currentLine := lineno;
      plain := plain.(line := lineno);
    }

    // A new handle for the column in the current file and line.
    method GetLocation(column: U32) returns (handle: nat)
      requires Valid() && inFile && |encodedLocations| < NO_HANDLE
      modifies this
      ensures Valid() && View() == Step(old(View()), Locate(column))
      ensures handle !in old(plain.places)
      ensures plain
           == old(plain).(places := old(plain.places)[handle := Place(old(plain.file), old(plain.line), column)])
    {
      StepKeeps(View(), plain, Locate(column));
      ghost var p := plain;
      handle := AddEncodedLocation(currentLine, column);
      if firsthandle == NO_HANDLE {
        firsthandle := handle;
      }
      lasthandle := handle;
      plain := p.(places := p.places[handle := Place(p.file, p.line, column)]);
    }

    method Stop()
      requires Valid()
      modifies this`inFile, this`plain
      ensures Valid() && View() == Step(old(View()), Halt) && plain == old(plain).(inFile := false)
    {
      StepKeeps(View(), plain, Halt);
      inFile := false;
      plain := plain.(inFile := false);
    }

    method LocationFile(handle: nat) returns (file: string)
      requires Valid() && handle in plain.places
      ensures file == plain.places[handle].file
    {
      var flc := DecodeLocation(handle);
      file := files[flc.fidx];
    }

    method LocationLine(handle: nat) returns (line: nat)
      requires Valid() && handle in plain.places
      ensures line == plain.places[handle].line
    {
      var flc := DecodeLocation(handle);
      line := flc.line;
    }

    method LocationColumn(handle: nat) returns (column: nat)
      requires Valid() && handle in plain.places
      ensures column == plain.places[handle].column
    {
      var flc := DecodeLocation(handle);
      column := flc.column;
    }
  }
}

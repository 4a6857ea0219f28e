/**
 * The package editor of the register-map scripts: it copies a generated SystemVerilog
 * package line by line, dropping the typedef blocks that mention a type to clean and,
 * after the marker line "  // Register -> HW type\n", every single line that mentions
 * one. Before the marker, lines are buffered block by block (a block starts at a line
 * containing "typedef") and a buffered block is emitted whole or dropped whole when the
 * next block or the marker begins; the package line is renamed on the way.
 */
module PkgEditor {
  import opened Text

  const MARKER: string := "  // Register -> HW type\n"
  const PACKAGE_LINE: string := "package iopmp_reg_pkg;"
  const RENAMED_PACKAGE: string := "package rv_iopmp_reg_pkg;\n"

  predicate IsTypedef(line: string)
  {
    Contains(line, "typedef")
  }

  /** The line as it is buffered before the marker. */
  function Rename(line: string): string
  {
    if Contains(line, PACKAGE_LINE) then RENAMED_PACKAGE else line
  }

  /** The line mentions one of the types to clean. */
  predicate Dirty(line: string, types: seq<string>)
  {
    exists j :: 0 <= j < |types| && Contains(line, types[j])
  }

  /** Some line of the block mentions one of the types to clean. */
  predicate AnyDirty(block: seq<string>, types: seq<string>)
  {
    exists i :: 0 <= i < |block| && Dirty(block[i], types)
  }

  // ---------------------------------------------------------------------------
  // The loop of main, one line at a time

  /** typedefs_processed, new_file_lines and temp_lines. */
  datatype EditState = EditState(processed: bool, out: seq<string>, temp: seq<string>)

  /** One iteration of the loop. */
  function Step(s: EditState, line: string, types: seq<string>): EditState
  {
    if !s.processed then
      var flushed :=
        if IsTypedef(line) || line == MARKER then
          s.(out := s.out + (if AnyDirty(s.temp, types) then [] else s.temp), temp := [])
        else s;
      if line == MARKER then flushed.(processed := true, out := flushed.out + [line])
      else flushed.(temp := flushed.temp + [Rename(line)])
    else if Dirty(line, types) then s
    else s.(out := s.out + [line])
  }

  /** The state after the given lines, from the initial state (no marker seen, nothing
      written, nothing buffered). */
  function Run(lines: seq<string>, types: seq<string>): EditState
  {
    if |lines| == 0 then EditState(false, [], [])
    else Step(Run(lines[..|lines| - 1], types), lines[|lines| - 1], types)
  }

  /** The lines main writes to the output file. */
  function Output(lines: seq<string>, types: seq<string>): seq<string>
  {
    Run(lines, types).out
  }

  /** The flush at a typedef or the marker: for each buffered line and each type, a hit
      clears the buffer, which also ends the iteration over it. */
  method ClearIfDirty(tempLines: seq<string>, types: seq<string>) returns (kept: seq<string>)
    ensures kept == if AnyDirty(tempLines, types) then [] else tempLines
  {
    kept := tempLines;
    var i := 0;
    while i < |kept|
      invariant (kept == tempLines && i <= |tempLines| && !AnyDirty(tempLines[..i], types))
             || (kept == [] && AnyDirty(tempLines, types))
    {
      var tempLine := kept[i];
      for j := 0 to |types|
        invariant (kept == tempLines && forall jj :: 0 <= jj < j ==> !Contains(tempLine, types[jj]))
               || (kept == [] && AnyDirty(tempLines, types))
      {
        if Contains(tempLine, types[j]) {
          assert Dirty(tempLines[i], types);
          kept := [];
        }
      }
      if kept == tempLines {
        assert !Dirty(tempLine, types);
        var done := tempLines[..i + 1];
        forall ii | 0 <= ii < i + 1
          ensures !Dirty(done[ii], types)
        {
          if ii < i {
            assert done[ii] == tempLines[..i][ii];
          }
        }
      }
      i := i + 1;
    }
    if kept == tempLines {
      assert tempLines[..i] == tempLines;
    }
  }

  /** The search after the marker: does the line mention a type to clean. */
  method FindType(line: string, types: seq<string>) returns (found: bool)
    ensures found == Dirty(line, types)
  {
    found := false;
    var j := 0;
    while j < |types|
      invariant 0 <= j <= |types|
      invariant !found && forall jj :: 0 <= jj < j ==> !Contains(line, types[jj])
    {
      if Contains(line, types[j]) {
        return true;
      }
      j := j + 1;
    }
  }

  /** main's loop, with the input lines and types_to_clean as parameters. */
  method EditPackage(lines: seq<string>, typesToClean: seq<string>) returns (newFileLines: seq<string>)
    ensures newFileLines == Output(lines, typesToClean)
  {
    var typedefsProcessed := false;
    var tempLines: seq<string> := [];
    newFileLines := [];
    for k := 0 to |lines|
      invariant EditState(typedefsProcessed, newFileLines, tempLines) == Run(lines[..k], typesToClean)
    {
      var line := lines[k];
      assert lines[..k + 1][..k] == lines[..k];
      if !typedefsProcessed {
        if IsTypedef(line) || line == MARKER {
          var kept := ClearIfDirty(tempLines, typesToClean);
          newFileLines := newFileLines + kept;
          tempLines := [];
        }
        if line == MARKER {
          typedefsProcessed := true;
          newFileLines := newFileLines + [line];
        } else {
          tempLines := tempLines + [Rename(line)];
        }
      } else {
        var found := FindType(line, typesToClean);
        if !found {
          newFileLines := newFileLines + [line];
        }
      }
    }
    assert lines[..|lines|] == lines;
  }

  // ---------------------------------------------------------------------------
  // The same output, described by blocks

  /** The renamed lines before the marker, cut into blocks: the preamble, then one
      block from each typedef line up to the next. */
  function Chunks(pre: seq<string>): (cs: seq<seq<string>>)
    ensures |cs| >= 1
  {
    if |pre| == 0 then [[]]
    else
      var cs := Chunks(pre[..|pre| - 1]);
      var line := pre[|pre| - 1];
      if IsTypedef(line) then cs + [[Rename(line)]]
      else cs[..|cs| - 1] + [cs[|cs| - 1] + [Rename(line)]]
  }

  /** The blocks in order, each kept whole when clean and dropped whole when dirty. */
  function Kept(blocks: seq<seq<string>>, types: seq<string>): seq<string>
  {
    if |blocks| == 0 then []
    else
      var last := blocks[|blocks| - 1];
      Kept(blocks[..|blocks| - 1], types) + (if AnyDirty(last, types) then [] else last)
  }

  /** The blocks concatenated. */
  function Flatten(blocks: seq<seq<string>>): seq<string>
  {
    if |blocks| == 0 then [] else Flatten(blocks[..|blocks| - 1]) + blocks[|blocks| - 1]
  }

  function RenameAll(lines: seq<string>): (r: seq<string>)
    ensures |r| == |lines|
  {
    if |lines| == 0 then [] else RenameAll(lines[..|lines| - 1]) + [Rename(lines[|lines| - 1])]
  }

  /** The lines that mention no type to clean, in order. */
  function CleanLines(lines: seq<string>, types: seq<string>): seq<string>
  {
    if |lines| == 0 then []
    else
      var line := lines[|lines| - 1];
      CleanLines(lines[..|lines| - 1], types) + (if Dirty(line, types) then [] else [line])
  }

  /** Cutting into blocks loses and adds nothing. */
  lemma {:induction false} ChunksFlatten(pre: seq<string>)
    ensures Flatten(Chunks(pre)) == RenameAll(pre)
  {
    if |pre| > 0 {
      var init, line := pre[..|pre| - 1], pre[|pre| - 1];
      assert init + [line] == pre;
      ChunksFlatten(init);
      ChunksStep(init, line);
      assert RenameAll(pre) == RenameAll(init) + [Rename(line)];
    }
  }

  /** One more line adds its renamed form at the end of the flattened blocks. */
  lemma ChunksStep(init: seq<string>, line: string)
    ensures Flatten(Chunks(init + [line])) == Flatten(Chunks(init)) + [Rename(line)]
  {
    var pre := init + [line];
    assert pre[..|pre| - 1] == init && pre[|pre| - 1] == line;
    var cs := Chunks(init);
    if IsTypedef(line) {
      var cs' := cs + [[Rename(line)]];
      assert Chunks(pre) == cs';
      assert cs'[..|cs|] == cs;
      FlattenLast(cs');
    } else {
      var n := |cs| - 1;
      var cs' := cs[..n] + [cs[n] + [Rename(line)]];
      assert Chunks(pre) == cs';
      assert cs'[..n] == cs[..n];
      FlattenLast(cs');
      FlattenLast(cs);
      assert Flatten(cs[..n]) + (cs[n] + [Rename(line)]) == Flatten(cs[..n]) + cs[n] + [Rename(line)];
    }
  }

  /** Renaming never makes a typedef line: the renamed package line has no "t" at all. */
  lemma RenameKeepsNonTypedef(line: string)
    requires !IsTypedef(line)
    ensures !IsTypedef(Rename(line))
  {
    if Contains(line, PACKAGE_LINE) {
      var s := RENAMED_PACKAGE;
      assert forall j :: 0 <= j < |s| ==> s[j] != 't';
      forall i: nat | i <= |s|
        ensures !OccursAt(s, "typedef", i)
      {
        if i + 7 <= |s| {
          assert s[i..i + 7][0] == s[i];
        }
      }
    }
  }

  /** No line of a block after its first is a typedef line. */
  predicate NoTypedefFrom(block: seq<string>, from: nat)
  {
    forall j :: from <= j < |block| ==> !IsTypedef(block[j])
  }

  /** The other half of the block structure: the preamble holds no typedef line, and every
      later block holds one only as its first line, so a block runs up to the next
      typedef line. */
  lemma {:induction false} ChunksTypedefOnlyFirst(pre: seq<string>)
    ensures NoTypedefFrom(Chunks(pre)[0], 0)
    ensures forall k :: 1 <= k < |Chunks(pre)| ==> NoTypedefFrom(Chunks(pre)[k], 1)
  {
    if |pre| == 0 {
      assert Chunks(pre) == [[]];
    } else {
      var init, line := pre[..|pre| - 1], pre[|pre| - 1];
      ChunksTypedefOnlyFirst(init);
      var cs, ds := Chunks(init), Chunks(pre);
      var n := |cs| - 1;
      if IsTypedef(line) {
        assert ds == cs + [[Rename(line)]];
        assert ds[0] == cs[0];
      } else {
        assert ds == cs[..n] + [cs[n] + [Rename(line)]];
        RenameKeepsNonTypedef(line);
        var from := if n == 0 then 0 else 1;
        assert NoTypedefFrom(cs[n], from);
        assert NoTypedefFrom(ds[n], from);
        assert n > 0 ==> ds[0] == cs[0];
      }
    }
  }

  /** The block is non-empty and begins with a typedef line of lines, renamed. */
  predicate OpensWithTypedef(block: seq<string>, lines: seq<string>)
  {
    |block| > 0 && exists i :: 0 <= i < |lines| && IsTypedef(lines[i]) && block[0] == Rename(lines[i])
  }

  /** A block that keeps its first line still opens with a typedef once more lines follow. */
  lemma OpensWithTypedefGrow(b: seq<string>, b': seq<string>, init: seq<string>, line: string)
    requires OpensWithTypedef(b, init) && |b'| > 0 && b'[0] == b[0]
    ensures OpensWithTypedef(b', init + [line])
  {
    var i :| 0 <= i < |init| && IsTypedef(init[i]) && b[0] == Rename(init[i]);
    assert (init + [line])[i] == init[i];
  }

  /** Every block after the preamble starts with a typedef line of the input, renamed. */
  lemma {:induction false} ChunksStartAtTypedefs(pre: seq<string>)
    ensures forall k :: 1 <= k < |Chunks(pre)| ==> OpensWithTypedef(Chunks(pre)[k], pre)
  {
    if |pre| == 0 {
      assert |Chunks(pre)| == 1;
    } else {
      var init, line := pre[..|pre| - 1], pre[|pre| - 1];
      assert pre == init + [line];
      ChunksStartAtTypedefs(init);
      var cs, ds := Chunks(init), Chunks(pre);
      var n := |cs| - 1;
      if IsTypedef(line) {
        assert ds == cs + [[Rename(line)]];
      } else {
        assert ds == cs[..n] + [cs[n] + [Rename(line)]];
      }
      forall k | 1 <= k < |ds|
        ensures OpensWithTypedef(ds[k], pre)
      {
        if k < |cs| {
          assert ds[k][0] == cs[k][0];
          OpensWithTypedefGrow(cs[k], ds[k], init, line);
        } else {
          assert ds[k] == [Rename(pre[|pre| - 1])];
        }
      }
    }
  }

  lemma FlattenLast(cs: seq<seq<string>>)
    requires |cs| >= 1
    ensures Flatten(cs) == Flatten(cs[..|cs| - 1]) + cs[|cs| - 1]
  {
  }

  /** Before the marker the loop has written exactly the clean blocks that are complete
      and holds the last, open block in its buffer. */
  lemma {:induction false} RunBeforeMarker(pre: seq<string>, types: seq<string>)
    requires MARKER !in pre
    ensures var cs := Chunks(pre);
      Run(pre, types) == EditState(false, Kept(cs[..|cs| - 1], types), cs[|cs| - 1])
  {
    if |pre| > 0 {
      var init := pre[..|pre| - 1];
      var line := pre[|pre| - 1];
      assert MARKER !in init;
      RunBeforeMarker(init, types);
      var cs := Chunks(init);
      if IsTypedef(line) {
        assert (cs + [[Rename(line)]])[..|cs|] == cs;
      } else {
        var n := |cs| - 1;
        assert (cs[..n] + [cs[n] + [Rename(line)]])[..n] == cs[..n];
      }
    }
  }

  /** The marker flushes the open block and is written itself; after it, exactly the
      lines that mention no type to clean are written. */
  lemma {:induction false} RunAfterMarker(pre: seq<string>, post: seq<string>, types: seq<string>)
    requires MARKER !in pre
    ensures Run(pre + [MARKER] + post, types)
         == EditState(true, Kept(Chunks(pre), types) + [MARKER] + CleanLines(post, types), [])
  {
    if |post| == 0 {
      RunAtMarker(pre, types);
      assert pre + [MARKER] + post == pre + [MARKER];
    } else {
      var init := post[..|post| - 1];
      RunAfterMarker(pre, init, types);
      var all := pre + [MARKER] + post;
      assert all[..|all| - 1] == pre + [MARKER] + init;
      assert all[|all| - 1] == post[|post| - 1];
    }
  }

  /** The marker line itself: the open block is flushed and the marker written. */
  lemma RunAtMarker(pre: seq<string>, types: seq<string>)
    requires MARKER !in pre
    ensures Run(pre + [MARKER], types) == EditState(true, Kept(Chunks(pre), types) + [MARKER], [])
  {
    var cs := Chunks(pre);
    RunBeforeMarker(pre, types);
    assert (pre + [MARKER])[..|pre|] == pre;
    assert cs[..|cs| - 1] + [cs[|cs| - 1]] == cs;
  }

  /** The output in one statement: with a marker, the clean blocks before it, the
      marker, and the clean lines after it. */
  lemma OutputWithMarker(pre: seq<string>, post: seq<string>, types: seq<string>)
    requires MARKER !in pre
    ensures Output(pre + [MARKER] + post, types) == Kept(Chunks(pre), types) + [MARKER] + CleanLines(post, types)
  {
    RunAfterMarker(pre, post, types);
  }

  /** Without a marker the last block stays in the buffer and is never written. */
  lemma OutputWithoutMarker(lines: seq<string>, types: seq<string>)
    requires MARKER !in lines
    ensures var cs := Chunks(lines);
      Output(lines, types) == Kept(cs[..|cs| - 1], types)
  {
    RunBeforeMarker(lines, types);
  }

  /** Once the marker has been seen the loop stays in its filtering phase. */
  lemma {:induction false} ProcessedIffMarkerSeen(lines: seq<string>, types: seq<string>)
    ensures Run(lines, types).processed <==> MARKER in lines
  {
    if |lines| > 0 {
      var init := lines[..|lines| - 1];
      ProcessedIffMarkerSeen(init, types);
      assert lines == init + [lines[|lines| - 1]];
    }
  }

  /** With nothing to clean, every block is kept: the output is the input with the
      package line renamed before the marker. */
  lemma OutputNothingToClean(pre: seq<string>, post: seq<string>)
    requires MARKER !in pre
    ensures Output(pre + [MARKER] + post, []) == RenameAll(pre) + [MARKER] + post
  {
    OutputWithMarker(pre, post, []);
    KeptAllClean(Chunks(pre));
    ChunksFlatten(pre);
    CleanLinesNothing(post);
  }

  lemma {:induction false} KeptAllClean(blocks: seq<seq<string>>)
    ensures Kept(blocks, []) == Flatten(blocks)
  {
    if |blocks| > 0 {
      KeptAllClean(blocks[..|blocks| - 1]);
    }
  }

  lemma {:induction false} CleanLinesNothing(lines: seq<string>)
    ensures CleanLines(lines, []) == lines
  {
    if |lines| > 0 {
      CleanLinesNothing(lines[..|lines| - 1]);
    }
  }

  // ---------------------------------------------------------------------------
  // Order-preserving subsequence

  /** a is b with some elements removed, order kept. */
  predicate SubseqOf(a: seq<string>, b: seq<string>)
    decreases |b|
  {
    |a| == 0 || (|b| > 0 && ((a[0] == b[0] && SubseqOf(a[1..], b[1..])) || SubseqOf(a, b[1..])))
  }

  lemma {:induction false} SubseqRefl(a: seq<string>)
    ensures SubseqOf(a, a)
    decreases |a|
  {
    if |a| > 0 {
      SubseqRefl(a[1..]);
    }
  }

  lemma {:induction false} SubseqPrefix(a: seq<string>, b1: seq<string>, b2: seq<string>)
    requires SubseqOf(a, b2)
    ensures SubseqOf(a, b1 + b2)
    decreases |b1|
  {
    if |b1| == 0 {
      assert b1 + b2 == b2;
    } else if |a| > 0 {
      SubseqPrefix(a, b1[1..], b2);
      assert (b1 + b2)[1..] == b1[1..] + b2;
    }
  }

  lemma {:induction false} SubseqConcat(a1: seq<string>, b1: seq<string>, a2: seq<string>, b2: seq<string>)
    requires SubseqOf(a1, b1) && SubseqOf(a2, b2)
    ensures SubseqOf(a1 + a2, b1 + b2)
    decreases |b1|
  {
    if |a1| == 0 {
      assert a1 + a2 == a2;
      SubseqPrefix(a2, b1, b2);
    } else {
      assert (b1 + b2)[1..] == b1[1..] + b2;
      if a1[0] == b1[0] && SubseqOf(a1[1..], b1[1..]) {
        SubseqConcat(a1[1..], b1[1..], a2, b2);
        assert (a1 + a2)[1..] == a1[1..] + a2;
      } else {
        SubseqConcat(a1, b1[1..], a2, b2);
      }
    }
  }

  lemma SubseqEmpty(b: seq<string>)
    ensures SubseqOf([], b)
  {
  }

  lemma {:induction false} KeptSubseq(blocks: seq<seq<string>>, types: seq<string>)
    ensures SubseqOf(Kept(blocks, types), Flatten(blocks))
  {
    if |blocks| > 0 {
      var last := blocks[|blocks| - 1];
      KeptSubseq(blocks[..|blocks| - 1], types);
      if AnyDirty(last, types) {
        SubseqEmpty(last);
      } else {
        SubseqRefl(last);
      }
      SubseqConcat(Kept(blocks[..|blocks| - 1], types), Flatten(blocks[..|blocks| - 1]),
                   if AnyDirty(last, types) then [] else last, last);
    }
  }

  lemma {:induction false} CleanLinesSubseq(lines: seq<string>, types: seq<string>)
    ensures SubseqOf(CleanLines(lines, types), lines)
  {
    if |lines| > 0 {
      var init, line := lines[..|lines| - 1], lines[|lines| - 1];
      CleanLinesSubseq(init, types);
      if Dirty(line, types) {
        SubseqEmpty([line]);
      } else {
        SubseqRefl([line]);
      }
      SubseqConcat(CleanLines(init, types), init, if Dirty(line, types) then [] else [line], [line]);
      assert init + [line] == lines;
    }
  }

  /** The output is an order-preserving subsequence of the input in which the lines
      before the marker are renamed: nothing is added, reordered or altered otherwise. */
  lemma OutputIsSubsequence(pre: seq<string>, post: seq<string>, types: seq<string>)
    requires MARKER !in pre
    ensures SubseqOf(Output(pre + [MARKER] + post, types), RenameAll(pre) + [MARKER] + post)
  {
    OutputWithMarker(pre, post, types);
    KeptSubseq(Chunks(pre), types);
    ChunksFlatten(pre);
    CleanLinesSubseq(post, types);
    SubseqRefl([MARKER]);
    SubseqConcat(Kept(Chunks(pre), types), RenameAll(pre), [MARKER], [MARKER]);
    SubseqConcat(Kept(Chunks(pre), types) + [MARKER], RenameAll(pre) + [MARKER], CleanLines(post, types), post);
  }

  /** The same without a marker: the output is a subsequence of the renamed input. */
  lemma OutputIsSubsequenceWithoutMarker(lines: seq<string>, types: seq<string>)
    requires MARKER !in lines
    ensures SubseqOf(Output(lines, types), RenameAll(lines))
  {
    var cs := Chunks(lines);
    OutputWithoutMarker(lines, types);
    KeptSubseq(cs[..|cs| - 1], types);
    ChunksFlatten(lines);
    assert cs == cs[..|cs| - 1] + [cs[|cs| - 1]];
    FlattenLast(cs);
    SubseqEmpty(cs[|cs| - 1]);
    SubseqConcat(Kept(cs[..|cs| - 1], types), Flatten(cs[..|cs| - 1]), [], cs[|cs| - 1]);
    assert Kept(cs[..|cs| - 1], types) + [] == Kept(cs[..|cs| - 1], types);
  }
}

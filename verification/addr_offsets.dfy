/**
 * get_addr_offsets: the testbench reads the generated register header line by line and,
 * for every line mentioning "_REG_OFFSET", maps the second space-separated token (the
 * macro name) to the third (the offset text, newline included). A later line with the
 * same name overwrites an earlier one.
 */
module AddrOffsets {
  import opened Wrappers
  import opened Text
  import opened TbBus

  const MARKER: string := "_REG_OFFSET"

  /** The line is one get_addr_offsets keeps. */
  predicate Matches(line: string)
  {
    Contains(line, MARKER)
  }

  /** The table after the given lines, or IndexError for a matching line with fewer than
      three tokens. */
  function Params(lines: seq<string>): Result<map<string, string>, TbError>
    decreases |lines|
  {
    if |lines| == 0 then Ok(map[])
    else
      match Params(lines[..|lines| - 1])
      case Err(e) => Err(e)
      case Ok(m) =>
        var line := lines[|lines| - 1];
        if !Matches(line) then Ok(m)
        else
          var tmp := Split(line, ' ');
          if |tmp| < 3 then Err(IndexError) else Ok(m[tmp[1] := tmp[2]])
  }

  /** The matching line has the three tokens the parser indexes. */
  predicate WellFormedLine(line: string)
  {
    Matches(line) ==> |Split(line, ' ')| >= 3
  }

  /** The line is a kept line naming key. */
  predicate HasKey(line: string, key: string)
  {
    Matches(line) && |Split(line, ' ')| >= 3 && Split(line, ' ')[1] == key
  }

  /** Line i is the last kept line naming key. */
  predicate LastWithKey(lines: seq<string>, i: nat, key: string)
  {
    && i < |lines| && HasKey(lines[i], key)
    && forall k :: i < k < |lines| ==> !HasKey(lines[k], key)
  }

  /** get_addr_offsets, with the file's lines as a parameter. */
  method GetAddrOffsets(lines: seq<string>) returns (r: Result<map<string, string>, TbError>)
    ensures r == Params(lines)
  {
    var params: map<string, string> := map[];
    var k := 0;
    while k < |lines|
      invariant 0 <= k <= |lines|
      invariant Params(lines[..k]) == Ok(params)
    {
      var line := lines[k];
      assert lines[..k + 1][..k] == lines[..k];
      if Matches(line) {
        var tmp := Split(line, ' ');
        if |tmp| < 3 {
          assert Params(lines[..k + 1]) == Err(IndexError);
          ParamsErrSticky(lines, k + 1);
          return Err(IndexError);
        }
        params := params[tmp[1] := tmp[2]];
      }
      k := k + 1;
    }
    assert lines[..k] == lines;
    r := Ok(params);
  }

  /** Once a prefix fails, the whole run fails with the same error. */
  lemma {:induction false} ParamsErrSticky(lines: seq<string>, n: nat)
    requires n <= |lines| && Params(lines[..n]).Err?
    ensures Params(lines) == Params(lines[..n])
    decreases |lines| - n
  {
    if n < |lines| {
      assert lines[..n + 1][..n] == lines[..n];
      ParamsErrSticky(lines, n + 1);
    } else {
      assert lines[..n] == lines;
    }
  }

  /** The parse fails exactly when some matching line has fewer than three tokens. */
  lemma {:induction false} ParamsOkIff(lines: seq<string>)
    ensures Params(lines).Ok? <==> forall i :: 0 <= i < |lines| ==> WellFormedLine(lines[i])
    ensures Params(lines).Err? ==> Params(lines).error == IndexError
    decreases |lines|
  {
    if |lines| > 0 {
      var init := lines[..|lines| - 1];
      ParamsOkIff(init);
      assert forall i :: 0 <= i < |init| ==> init[i] == lines[i];
    }
  }

  /** A name is in the table exactly when some matching line carries it, and its value
      is the third token of the last such line. */
  lemma {:induction false} ParamsLookup(lines: seq<string>, key: string)
    requires Params(lines).Ok?
    ensures key in Params(lines).value <==> exists i :: 0 <= i < |lines| && HasKey(lines[i], key)
    ensures forall i: nat :: LastWithKey(lines, i, key) ==> Params(lines).value[key] == Split(lines[i], ' ')[2]
    decreases |lines|
  {
    ParamsOkIff(lines);
    if |lines| > 0 {
      var n := |lines| - 1;
      var init := lines[..n];
      assert Params(init).Ok?;
      ParamsLookup(init, key);
      assert forall i :: 0 <= i < n ==> init[i] == lines[i];
      forall i: nat | LastWithKey(lines, i, key)
        ensures Params(lines).value[key] == Split(lines[i], ' ')[2]
      {
        if i < n {
          assert LastWithKey(init, i, key);
        }
      }
    }
  }

  /** Lines that do not mention "_REG_OFFSET" can be dropped, or added anywhere,
      without changing the result. */
  lemma {:induction false} ParamsIgnoresOtherLines(lines: seq<string>, extra: string, n: nat)
    requires n <= |lines| && !Matches(extra)
    ensures Params(lines[..n] + [extra] + lines[n..]) == Params(lines)
    decreases |lines| - n
  {
    var with := lines[..n] + [extra] + lines[n..];
    if n == |lines| {
      assert with[..|with| - 1] == lines;
      assert lines[..n] == lines;
    } else {
      var init := lines[..|lines| - 1];
      ParamsIgnoresOtherLines(init, extra, n);
      assert with[..|with| - 1] == init[..n] + [extra] + init[n..];
      assert with[|with| - 1] == lines[|lines| - 1];
    }
  }

  /** A header line "#define NAME VALUE", with NAME containing "_REG_OFFSET" and no
      spaces in NAME or VALUE, maps NAME to VALUE. */
  lemma DefineLineParsed(name: string, value: string)
    requires Contains(name, MARKER) && ' ' !in name && ' ' !in value
    ensures Params(["#define " + name + " " + value]) == Ok(map[name := value])
  {
    var line := "#define " + name + " " + value;
    ContainsInConcat("#define ", name, " " + value, MARKER);
    assert "#define " + name + (" " + value) == line;
    var ps := ["#define", name, value];
    assert ps[1..][1..] == [value];
    assert Join(ps[1..], ' ') == name + [' '] + value;
    assert Join(ps, ' ') == "#define" + [' '] + (name + [' '] + value);
    assert "#define" + [' '] == "#define ";
    assert Join(ps, ' ') == line;
    SplitJoin(["#define", name, value], ' ');
    assert [line][..0] == [];
  }
}

/**
 * The template configurator: it starts from nine default parameters, lets a JSON
 * configuration override any of them (the three enable flags pass through bool_to_int),
 * and collects the (input, output) file pairs the configuration lists for rendering.
 */
module Template {
  import opened Wrappers

  /** A value as json.load produces it. */
  datatype Json =
    | JNull
    | JBool(b: bool)
    | JInt(i: int)
    | JReal(r: real)
    | JStr(s: string)
    | JArray(items: seq<Json>)
    | JObject(fields: map<string, Json>)

  /** The Python exceptions process_json can raise on a malformed configuration. */
  datatype PyError = KeyError | TypeError

  const VERSION: string := "version"
  const MODEL: string := "model"
  const ENABLE_TOR: string := "enable_tor"
  const ENABLE_SPS: string := "enable_sps"
  const ENABLE_USR_CFG: string := "enable_usr_cfg"
  const ENTRY_OFFSET: string := "entry_offset"
  const DOMAINS: string := "domains"
  const ENTRIES: string := "entries"
  const SOURCES: string := "sources"
  const FILES_TO_GENERATE: string := "files_to_generate"
  const INPUT_FILE: string := "input_file"
  const OUTPUT_FILE: string := "output_file"

  /** The nine template parameters, the only keys the parameters dictionary ever holds. */
  datatype Param =
    | Version | Model | EnableTor | EnableSps | EnableUsrCfg | EntryOffset | Domains | Entries | Sources

  /** The parameter's key, in the dictionary and in the configuration. */
  function Name(p: Param): string
  {
    match p
    case Version => VERSION
    case Model => MODEL
    case EnableTor => ENABLE_TOR
    case EnableSps => ENABLE_SPS
    case EnableUsrCfg => ENABLE_USR_CFG
    case EntryOffset => ENTRY_OFFSET
    case Domains => DOMAINS
    case Entries => ENTRIES
    case Sources => SOURCES
  }

  /** The parameters in the order process_json tests them. */
  const KEYS: seq<Param> := [Version, Model, EnableTor, EnableSps, EnableUsrCfg, EntryOffset, Domains, Entries, Sources]

  /** The parameters that go through bool_to_int. */
  predicate IsFlag(p: Param)
  {
    p == EnableTor || p == EnableSps || p == EnableUsrCfg
  }

  /** The parameters dictionary: it always holds exactly the nine keys, one field each. */
  datatype Params = Params(
    version: Json, model: Json, enableTor: Json, enableSps: Json, enableUsrCfg: Json,
    entryOffset: Json, domains: Json, entries: Json, sources: Json)

  /** parameters[Name(k)] */
  function Get(ps: Params, k: Param): Json
  {
    match k
    case Version => ps.version
    case Model => ps.model
    case EnableTor => ps.enableTor
    case EnableSps => ps.enableSps
    case EnableUsrCfg => ps.enableUsrCfg
    case EntryOffset => ps.entryOffset
    case Domains => ps.domains
    case Entries => ps.entries
    case Sources => ps.sources
  }

  /** parameters[Name(k)] = v */
  function Set(ps: Params, k: Param, v: Json): Params
  {
    match k
    case Version => ps.(version := v)
    case Model => ps.(model := v)
    case EnableTor => ps.(enableTor := v)
    case EnableSps => ps.(enableSps := v)
    case EnableUsrCfg => ps.(enableUsrCfg := v)
    case EntryOffset => ps.(entryOffset := v)
    case Domains => ps.(domains := v)
    case Entries => ps.(entries := v)
    case Sources => ps.(sources := v)
  }

  /** Storing under k changes the value under k and no other. */
  lemma GetSet(ps: Params, k: Param, v: Json, j: Param)
    ensures Get(Set(ps, k, v), j) == if j == k then v else Get(ps, j)
  {
  }

  /** Two dictionaries with the same value under every key are the same. */
  lemma ParamsEqual(a: Params, b: Params)
    requires forall k :: Get(a, k) == Get(b, k)
    ensures a == b
  {
    assert Get(a, Version) == Get(b, Version) && Get(a, Model) == Get(b, Model);
    assert Get(a, EnableTor) == Get(b, EnableTor) && Get(a, EnableSps) == Get(b, EnableSps);
    assert Get(a, EnableUsrCfg) == Get(b, EnableUsrCfg) && Get(a, EntryOffset) == Get(b, EntryOffset);
    assert Get(a, Domains) == Get(b, Domains) && Get(a, Entries) == Get(b, Entries);
    assert Get(a, Sources) == Get(b, Sources);
  }

  /** The defaults, before any configuration is read. */
  const DEFAULTS: Params :=
    Params(JInt(0), JInt(0), JInt(1), JInt(0), JInt(0), JInt(8192), JInt(4), JInt(16), JInt(4))

  /** bool_to_int: 1 when the value compares equal to True under Python's ==, which
      holds for true, for the integer 1 and for the float 1.0; 0 for anything else. */
  function BoolToInt(v: Json): (n: int)
    ensures n == 0 || n == 1
  {
    if v == JBool(true) || v == JInt(1) || v == JReal(1.0) then 1 else 0
  }

  /** JSON booleans map to 1 and 0. */
  lemma BoolToIntOfBool(b: bool)
    ensures BoolToInt(JBool(b)) == if b then 1 else 0
  {
  }

  /** It is an equality test, not a truth test: a number other than 1 gives 0, though
      Python counts it as true. */
  lemma BoolToIntOfInt(n: int)
    ensures BoolToInt(JInt(n)) == 1 <==> n == 1
    ensures BoolToInt(JInt(2)) == 0 && BoolToInt(JStr("true")) == 0
  {
  }

  /** Python's 1.0 == True holds too: the float 1.0 gives 1 and every other float 0. */
  lemma BoolToIntOfReal(r: real)
    ensures BoolToInt(JReal(r)) == 1 <==> r == 1.0
    ensures BoolToInt(JReal(0.5)) == 0
  {
  }

  /** The value a configuration entry for parameter k is stored as. */
  function Override(k: Param, v: Json): Json
  {
    if IsFlag(k) then JInt(BoolToInt(v)) else v
  }

  /** One `if key in data` override. */
  function Apply(params: Params, data: map<string, Json>, k: Param): Params
  {
    if Name(k) in data then Set(params, k, Override(k, data[Name(k)])) else params
  }

  /** The parameters after the overrides for the keys ks, in order. */
  function MergeKeys(params: Params, data: map<string, Json>, ks: seq<Param>): Params
  {
    if |ks| == 0 then params
    else Apply(MergeKeys(params, data, ks[..|ks| - 1]), data, ks[|ks| - 1])
  }

  /** The parameters after the configuration data. */
  function Merged(params: Params, data: map<string, Json>): Params
  {
    MergeKeys(params, data, KEYS)
  }

  /** What `for file in data["files_to_generate"]` iterates over, or the error it meets
      first: a missing key is a KeyError; a list yields its elements; an empty object or
      string yields nothing; the members of a non-empty object or string are strings, and
      indexing one with "input_file" is a TypeError; no other value can be iterated. */
  function FileList(data: map<string, Json>): (r: Result<seq<Json>, PyError>)
    ensures r == Err(KeyError) <==> FILES_TO_GENERATE !in data
    ensures FILES_TO_GENERATE in data && data[FILES_TO_GENERATE].JArray? ==> r == Ok(data[FILES_TO_GENERATE].items)
    ensures r.Ok? && |r.value| > 0 ==> data[FILES_TO_GENERATE].JArray?
    ensures r.Err? && FILES_TO_GENERATE in data ==> !data[FILES_TO_GENERATE].JArray?
  {
    if FILES_TO_GENERATE !in data then Err(KeyError)
    else
      match data[FILES_TO_GENERATE]
      case JArray(items) => Ok(items)
      case JObject(m) => if |m| == 0 then Ok([]) else Err(TypeError)
      case JStr(s) => if |s| == 0 then Ok([]) else Err(TypeError)
      case _ => Err(TypeError)
  }

  /** The entry is an object with both file names. */
  predicate FileEntry(f: Json)
  {
    f.JObject? && INPUT_FILE in f.fields && OUTPUT_FILE in f.fields
  }

  /** The error indexing a bad entry raises: a missing key in an object, or a value that
      cannot be indexed by a string. */
  function EntryError(f: Json): PyError
  {
    if f.JObject? then KeyError else TypeError
  }

  /** The [input_file, output_file] pair of a good entry. */
  function FilePair(f: Json): (Json, Json)
    requires FileEntry(f)
  {
    (f.fields[INPUT_FILE], f.fields[OUTPUT_FILE])
  }

  /** The number of good entries before the first bad one. */
  function GoodPrefix(items: seq<Json>): (n: nat)
    ensures n <= |items|
    ensures forall j :: 0 <= j < n ==> FileEntry(items[j])
    ensures n < |items| ==> !FileEntry(items[n])
  {
    if |items| == 0 || !FileEntry(items[0]) then 0
    else
      var n := GoodPrefix(items[1..]);
      assert forall j :: 1 <= j < n + 1 ==> items[j] == items[1..][j - 1];
      n + 1
  }

  /** The pairs of the first n entries, in order. */
  function Pairs(items: seq<Json>, n: nat): (ps: seq<(Json, Json)>)
    requires n <= |items| && forall j :: 0 <= j < n ==> FileEntry(items[j])
  {
    seq(n, j requires 0 <= j < n => FilePair(items[j]))
  }

  /** The pairs process_json appends: one per entry, up to the first bad one. */
  function NewFiles(data: map<string, Json>): seq<(Json, Json)>
  {
    match FileList(data)
    case Err(_) => []
    case Ok(items) => Pairs(items, GoodPrefix(items))
  }

  /** How process_json ends. */
  function Outcome(data: map<string, Json>): Result<(), PyError>
  {
    match FileList(data)
    case Err(e) => Err(e)
    case Ok(items) =>
      var n := GoodPrefix(items);
      if n == |items| then Ok(()) else Err(EntryError(items[n]))
  }

  /** One `if key in data` test of process_json: store the configured value, through
      bool_to_int for the three flags, or leave the dictionary as it is. */
  method OverrideKey(p: Params, data: map<string, Json>, k: Param) returns (q: Params)
    ensures q == Apply(p, data, k)
  {
    q := p;
    if Name(k) in data {
      q := Set(p, k, Override(k, data[Name(k)]));
    }
  }

  /** The module-level state of the script: the parameters dictionary and the list of
      files to generate. */
  class TemplateConfig {
    var parameters: Params
    var filesToGenerate: seq<(Json, Json)>

    constructor()
      ensures parameters == DEFAULTS && filesToGenerate == []
    {
      parameters := DEFAULTS;
      filesToGenerate := [];
    }

    /** The nine `if key in data` tests at the head of process_json. */
    method ApplyOverrides(data: map<string, Json>)
      modifies this
      ensures parameters == Merged(old(parameters), data)
      ensures filesToGenerate == old(filesToGenerate)
    {
      // p: the dictionary as the tests so far left it
      var p := parameters;
      p := OverrideKey(p, data, Version);
      p := OverrideKey(p, data, Model);
      p := OverrideKey(p, data, EnableTor);
      p := OverrideKey(p, data, EnableSps);
      p := OverrideKey(p, data, EnableUsrCfg);
      p := OverrideKey(p, data, EntryOffset);
      p := OverrideKey(p, data, Domains);
      p := OverrideKey(p, data, Entries);
      p := OverrideKey(p, data, Sources);
      MergedSteps(parameters, data);
      parameters := p;
    }

    /** process_json, with the loaded configuration as a parameter. The overrides are
        applied before the file list is read, so they stay even when it fails; pairs
        appended before a bad entry stay too. */
    method ProcessJson(data: map<string, Json>) returns (r: Result<(), PyError>)
      modifies this
      ensures parameters == Merged(old(parameters), data)
      ensures filesToGenerate == old(filesToGenerate) + NewFiles(data)
      ensures r == Outcome(data)
    {
      ApplyOverrides(data);
      var entries := FileList(data);
      if entries.Err? {
        return Err(entries.error);
      }
      var items := entries.value;
      for i := 0 to |items|
        invariant parameters == Merged(old(parameters), data)
        invariant forall j :: 0 <= j < i ==> FileEntry(items[j])
        invariant filesToGenerate == old(filesToGenerate) + Pairs(items, i)
      {
        var file := items[i];
        if !file.JObject? || INPUT_FILE !in file.fields {
          assert GoodPrefix(items) == i;
          return Err(EntryError(file));
        }
        var tmp := [file.fields[INPUT_FILE]];
        if OUTPUT_FILE !in file.fields {
          assert GoodPrefix(items) == i;
          return Err(KeyError);
        }
        tmp := tmp + [file.fields[OUTPUT_FILE]];
        assert Pairs(items, i + 1) == Pairs(items, i) + [(tmp[0], tmp[1])];
        filesToGenerate := filesToGenerate + [(tmp[0], tmp[1])];
      }
      assert GoodPrefix(items) == |items|;
      r := Ok(());
    }
  }

  // ---------------------------------------------------------------------------
  // Properties of the merge

  /** One more key is one more override. */
  lemma MergeKeysSnoc(params: Params, data: map<string, Json>, ks: seq<Param>, k: Param)
    ensures MergeKeys(params, data, ks + [k]) == Apply(MergeKeys(params, data, ks), data, k)
  {
    assert (ks + [k])[..|ks|] == ks;
  }

  /** The merge is the nine overrides one after the other, in the order of KEYS. */
  lemma MergedSteps(p: Params, data: map<string, Json>)
    ensures Merged(p, data)
         == Apply(Apply(Apply(Apply(Apply(Apply(Apply(Apply(Apply(p, data, Version), data, Model),
              data, EnableTor), data, EnableSps), data, EnableUsrCfg), data, EntryOffset),
              data, Domains), data, Entries), data, Sources)
  {
    var ks: seq<Param> := [];
    MergeKeysSnoc(p, data, ks, Version);
    ks := ks + [Version];
    MergeKeysSnoc(p, data, ks, Model);
    ks := ks + [Model];
    MergeKeysSnoc(p, data, ks, EnableTor);
    ks := ks + [EnableTor];
    MergeKeysSnoc(p, data, ks, EnableSps);
    ks := ks + [EnableSps];
    MergeKeysSnoc(p, data, ks, EnableUsrCfg);
    ks := ks + [EnableUsrCfg];
    MergeKeysSnoc(p, data, ks, EntryOffset);
    ks := ks + [EntryOffset];
    MergeKeysSnoc(p, data, ks, Domains);
    ks := ks + [Domains];
    MergeKeysSnoc(p, data, ks, Entries);
    ks := ks + [Entries];
    MergeKeysSnoc(p, data, ks, Sources);
    ks := ks + [Sources];
    assert ks == KEYS;
  }

  /** Key by key, the overrides for ks leave the stored form of the configured value
      for a parameter in ks that the configuration names, and the old value for any
      other parameter. */
  lemma {:induction false} MergeKeysLookup(params: Params, data: map<string, Json>, ks: seq<Param>, k: Param)
    ensures Get(MergeKeys(params, data, ks), k)
         == if k in ks && Name(k) in data then Override(k, data[Name(k)]) else Get(params, k)
  {
    if |ks| > 0 {
      var init := ks[..|ks| - 1];
      MergeKeysLookup(params, data, init, k);
      var last := ks[|ks| - 1];
      if Name(last) in data {
        GetSet(MergeKeys(params, data, init), last, Override(last, data[Name(last)]), k);
      }
      assert ks == init + [last];
    }
  }

  /** The merge key by key: a parameter the configuration names takes the stored form of
      the configured value; any other keeps its old value. */
  lemma MergedLookup(params: Params, data: map<string, Json>, k: Param)
    ensures Get(Merged(params, data), k) == if Name(k) in data then Override(k, data[Name(k)]) else Get(params, k)
  {
    MergeKeysLookup(params, data, KEYS, k);
    assert k in KEYS by {
      match k
      case Version => assert KEYS[0] == k;
      case Model => assert KEYS[1] == k;
      case EnableTor => assert KEYS[2] == k;
      case EnableSps => assert KEYS[3] == k;
      case EnableUsrCfg => assert KEYS[4] == k;
      case EntryOffset => assert KEYS[5] == k;
      case Domains => assert KEYS[6] == k;
      case Entries => assert KEYS[7] == k;
      case Sources => assert KEYS[8] == k;
    }
  }

  /** The keys of the nine parameters. */
  function Names(): set<string>
  {
    set k | k in KEYS :: Name(k)
  }

  /** Entries of the configuration that name no parameter change nothing. */
  lemma UnknownKeysIgnored(params: Params, data: map<string, Json>)
    ensures Merged(params, data) == Merged(params, map s | s in data && s in Names() :: data[s])
  {
    var known := map s | s in data && s in Names() :: data[s];
    forall k
      ensures Get(Merged(params, data), k) == Get(Merged(params, known), k)
    {
      assert k in KEYS by { MergedLookup(params, data, k); KeysComplete(k); }
      assert Name(k) in Names();
      MergedLookup(params, data, k);
      MergedLookup(params, known, k);
    }
    ParamsEqual(Merged(params, data), Merged(params, known));
  }

  lemma KeysComplete(k: Param)
    ensures k in KEYS
  {
    match k
    case Version => assert KEYS[0] == k;
    case Model => assert KEYS[1] == k;
    case EnableTor => assert KEYS[2] == k;
    case EnableSps => assert KEYS[3] == k;
    case EnableUsrCfg => assert KEYS[4] == k;
    case EntryOffset => assert KEYS[5] == k;
    case Domains => assert KEYS[6] == k;
    case Entries => assert KEYS[7] == k;
    case Sources => assert KEYS[8] == k;
  }

  /** A configuration that names no parameter leaves the parameters as they are. */
  lemma NoKnownKeysNoChange(params: Params, data: map<string, Json>)
    requires forall s :: s in data ==> s !in Names()
    ensures Merged(params, data) == params
  {
    forall k
      ensures Get(Merged(params, data), k) == Get(params, k)
    {
      KeysComplete(k);
      assert Name(k) in Names();
      MergedLookup(params, data, k);
    }
    ParamsEqual(Merged(params, data), params);
  }

  /** Applying the same configuration twice is the same as applying it once. */
  lemma MergedIdempotent(params: Params, data: map<string, Json>)
    ensures Merged(Merged(params, data), data) == Merged(params, data)
  {
    var once := Merged(params, data);
    forall k
      ensures Get(Merged(once, data), k) == Get(once, k)
    {
      MergedLookup(params, data, k);
      MergedLookup(once, data, k);
    }
    ParamsEqual(Merged(once, data), once);
  }

  /** From the defaults, the three flags are always 0 or 1 after the merge, whatever the
      configuration holds. */
  lemma FlagsStayBits(data: map<string, Json>)
    ensures forall k :: IsFlag(k) ==> Get(Merged(DEFAULTS, data), k) in {JInt(0), JInt(1)}
  {
    forall k | IsFlag(k)
      ensures Get(Merged(DEFAULTS, data), k) in {JInt(0), JInt(1)}
    {
      MergedLookup(DEFAULTS, data, k);
    }
  }

  // ---------------------------------------------------------------------------
  // Properties of the file list

  /** process_json ends without an error exactly when the file list is present, can be
      iterated, and every entry is an object with both file names. */
  lemma OutcomeOkIff(data: map<string, Json>)
    ensures Outcome(data).Ok? <==>
      FileList(data).Ok? && forall j :: 0 <= j < |FileList(data).value| ==> FileEntry(FileList(data).value[j])
  {
  }

  /** On success one pair is appended per entry, in the order of the entries. */
  lemma NewFilesInOrder(data: map<string, Json>)
    requires Outcome(data).Ok?
    ensures var items := FileList(data).value;
      && |NewFiles(data)| == |items|
      && forall j :: 0 <= j < |items| ==>
           NewFiles(data)[j] == (items[j].fields[INPUT_FILE], items[j].fields[OUTPUT_FILE])
  {
  }

  /** On a bad entry the pairs of the entries before it have been appended, and the error
      is KeyError for an object missing a file name and TypeError otherwise. */
  lemma BadEntryKeepsEarlierPairs(data: map<string, Json>, n: nat)
    requires FileList(data).Ok? && n < |FileList(data).value|
    requires forall j :: 0 <= j < n ==> FileEntry(FileList(data).value[j])
    requires !FileEntry(FileList(data).value[n])
    ensures |NewFiles(data)| == n
    ensures Outcome(data) == Err(if FileList(data).value[n].JObject? then KeyError else TypeError)
  {
  }
}

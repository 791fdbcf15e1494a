/**
 * The JSON-file-backed namespace registry: a forward map from prefix to namespace, a reverse
 * map from namespace to prefix, loading (with defaults for an empty file) and prefix registration.
 * File contents are given as parsed values; writing the file back is not modelled.
 */
module JsonNamespaces {
  import opened Wrappers

  /** A parsed JSON value. An object's fields are listed in document order. */
  datatype Json =
    | JString(text: string)
    | JNumber(number: int)
    | JBool(truth: bool)
    | JNull
    | JArray(items: seq<Json>)
    | JObject(fields: seq<(string, Json)>)

  /** What lies at a namespace file path: nothing, something unreadable, or a parsed tree (`None` for an empty document). */
  datatype NamespaceFile = Absent | Unreadable | Parsed(tree: Option<Json>)

  /** The unchecked I/O exception `read` throws when a file exists but cannot be read. */
  datatype IoError = UncheckedIO

  /** A parsed JSON object holds each field name once. */
  predicate UniqueKeys(fields: seq<(string, Json)>) {
    forall i, j | 0 <= i < j < |fields| :: fields[i].0 != fields[j].0
  }

  predicate WellFormed(file: NamespaceFile) {
    file.Parsed? && file.tree.Some? && file.tree.value.JObject? ==> UniqueKeys(file.tree.value.fields)
  }

  /** The string-valued fields of an object, as a map from field name to text; other fields are skipped. */
  function TextualFields(fields: seq<(string, Json)>): (m: map<string, string>)
    requires UniqueKeys(fields)
    ensures forall k :: k in m <==> exists i | 0 <= i < |fields| :: fields[i].0 == k && fields[i].1.JString?
    ensures forall i | 0 <= i < |fields| && fields[i].1.JString? :: fields[i].0 in m && m[fields[i].0] == fields[i].1.text
  {
    if |fields| == 0 then map[]
    else
      var last := fields[|fields| - 1];
      var m := TextualFields(fields[..|fields| - 1]);
      if last.1.JString? then m[last.0 := last.1.text] else m
  }

  /**
   * `read`: a missing file, an empty document or a non-object document gives the empty map; an
   * object gives its textual fields; an unreadable file throws.
   */
  function Read(file: NamespaceFile): (r: Result<map<string, string>, IoError>)
    requires WellFormed(file)
    ensures r.Failure? <==> file.Unreadable?
    ensures file.Absent? ==> r == Success(map[])
    ensures r.Success? && r.value != map[] ==> file.Parsed? && file.tree.Some? && file.tree.value.JObject?
    ensures r.Success? && file.Parsed? && file.tree.Some? && file.tree.value.JObject? ==>
      var fields := file.tree.value.fields;
      && (forall k :: k in r.value <==> exists i | 0 <= i < |fields| :: fields[i].0 == k && fields[i].1.JString?)
      && (forall i | 0 <= i < |fields| && fields[i].1.JString? :: r.value[fields[i].0] == fields[i].1.text)
  {
    match file
    case Absent => Success(map[])
    case Unreadable => Failure(UncheckedIO)
    case Parsed(tree) =>
      if tree.Some? && tree.value.JObject? then Success(TextualFields(tree.value.fields))
      else Success(map[])
  }

  /** The registry state: `data` maps prefixes to namespaces, `dataRev` namespaces to prefixes. */
  datatype Registry = Registry(data: map<string, string>, dataRev: map<string, string>)

  /** Every namespace in use has a reverse entry. */
  predicate Valid(reg: Registry) {
    reg.data.Values <= reg.dataRev.Keys
  }

  /** `getNamespaces`: a read-only view of the forward map. */
  function GetNamespaces(reg: Registry): (view: map<string, string>)
    ensures forall p :: p in view <==> p in reg.data
    ensures forall p | p in view :: view[p] == reg.data[p]
    ensures Valid(reg) ==> forall p | p in view :: view[p] in reg.dataRev
  {
    reg.data
  }

  /**
   * `setPrefix`: refused (false, nothing changes) when the namespace already has a reverse entry;
   * otherwise both maps gain the binding and the answer is true. No other key changes: rebinding a
   * prefix that already had a namespace leaves that old namespace's reverse entry in place.
   */
  function SetPrefix(reg: Registry, prefix: string, namespace: string): (r: (Registry, bool))
    ensures r.1 <==> namespace !in reg.dataRev
    ensures !r.1 ==> r.0 == reg
    ensures r.1 ==> prefix in r.0.data && r.0.data[prefix] == namespace
    ensures r.1 ==> namespace in r.0.dataRev && r.0.dataRev[namespace] == prefix
    ensures forall p | p != prefix :: (p in r.0.data <==> p in reg.data) && (p in reg.data ==> r.0.data[p] == reg.data[p])
    ensures forall ns | ns != namespace :: (ns in r.0.dataRev <==> ns in reg.dataRev) && (ns in reg.dataRev ==> r.0.dataRev[ns] == reg.dataRev[ns])
    ensures reg.dataRev.Keys <= r.0.dataRev.Keys
  {
    if namespace in reg.dataRev then (reg, false)
    else (Registry(reg.data[prefix := namespace], reg.dataRev[namespace := prefix]), true)
  }

  /** `setPrefix` keeps the registry valid. */
  lemma SetPrefixPreservesValid(reg: Registry, prefix: string, namespace: string)
    requires Valid(reg)
    ensures Valid(SetPrefix(reg, prefix, namespace).0)
  {
  }

  /** A registration is visible through `getNamespaces`; a refused one changes nothing visible. */
  lemma SetPrefixVisible(reg: Registry, prefix: string, namespace: string)
    ensures SetPrefix(reg, prefix, namespace).1 ==> GetNamespaces(SetPrefix(reg, prefix, namespace).0)[prefix] == namespace
    ensures !SetPrefix(reg, prefix, namespace).1 ==> GetNamespaces(SetPrefix(reg, prefix, namespace).0) == GetNamespaces(reg)
  {
  }

  /**
   * Rebinding a prefix to a new namespace leaves the old namespace reverse-mapped, so a later
   * attempt to give the old namespace any prefix is refused, even though no prefix maps to it any more
   * when the rebound prefix was its only one.
   */
  lemma RebindKeepsOldNamespaceReserved(reg: Registry, prefix: string, namespace: string, other: string)
    requires Valid(reg) && prefix in reg.data && reg.data[prefix] != namespace
    requires namespace !in reg.dataRev
    ensures var after := SetPrefix(reg, prefix, namespace).0;
      && SetPrefix(reg, prefix, namespace).1
      && reg.data[prefix] in after.dataRev
      && !SetPrefix(after, other, reg.data[prefix]).1
    ensures (forall p | p in reg.data && p != prefix :: reg.data[p] != reg.data[prefix]) ==>
      reg.data[prefix] !in SetPrefix(reg, prefix, namespace).0.data.Values
  {
  }

  /** Applies a series of `setPrefix` calls in order, returning the final registry. */
  function ApplyAll(reg: Registry, calls: seq<(string, string)>): Registry
    decreases |calls|
  {
    if |calls| == 0 then reg
    else ApplyAll(SetPrefix(reg, calls[0].0, calls[0].1).0, calls[1..])
  }

  /** Over any series of `setPrefix` calls the registry stays valid and no reverse key is ever lost. */
  lemma {:induction false} ApplyAllPreservesValid(reg: Registry, calls: seq<(string, string)>)
    requires Valid(reg)
    ensures Valid(ApplyAll(reg, calls))
    ensures reg.dataRev.Keys <= ApplyAll(reg, calls).dataRev.Keys
    decreases |calls|
  {
    if |calls| > 0 {
      var next := SetPrefix(reg, calls[0].0, calls[0].1).0;
      SetPrefixPreservesValid(reg, calls[0].0, calls[0].1);
      ApplyAllPreservesValid(next, calls[1..]);
    }
  }

  /**
   * `init`: an empty forward map is replaced by the defaults; then every forward entry gets a
   * reverse entry, visiting the entries in the map's (unspecified) iteration order, so that when
   * two prefixes share a namespace the one visited last wins.
   */
  method Init(loaded: map<string, string>, defaults: map<string, string>) returns (reg: Registry)
    ensures reg.data == (if |loaded| == 0 then defaults else loaded)
    ensures reg.dataRev.Keys == reg.data.Values
    ensures forall ns | ns in reg.dataRev :: reg.dataRev[ns] in reg.data && reg.data[reg.dataRev[ns]] == ns
    ensures Valid(reg)
  {
    var data := if |loaded| == 0 then defaults else loaded;
    var rev: map<string, string> := map[];
    var remaining := data.Keys;
    while remaining != {}
      invariant remaining <= data.Keys
      invariant rev.Keys == set p | p in data.Keys - remaining :: data[p]
      invariant forall ns | ns in rev :: rev[ns] in data.Keys - remaining && data[rev[ns]] == ns
      decreases remaining
    {
      var p :| p in remaining;
      rev := rev[data[p] := p];
      remaining := remaining - {p};
    }
    reg := Registry(data, rev);
  }

  /**
   * The constructor: read the configured file; when it yields nothing, read the defaults; then
   * `init`. Either read throwing makes construction throw.
   */
  method Open(file: NamespaceFile, defaultsFile: NamespaceFile) returns (r: Result<Registry, IoError>)
    requires WellFormed(file) && WellFormed(defaultsFile)
    ensures r.Failure? <==> file.Unreadable? || (Read(file).Success? && Read(file).value == map[] && defaultsFile.Unreadable?)
    ensures r.Success? ==> Valid(r.value) && r.value.dataRev.Keys == r.value.data.Values
    ensures r.Success? && Read(file).value != map[] ==> r.value.data == Read(file).value
    ensures r.Success? && Read(file).value == map[] ==> r.value.data == Read(defaultsFile).value
  {
    var loaded := Read(file);
    if loaded.Failure? {
      return Failure(loaded.error);
    }
    var defaults: map<string, string> := map[];
    if loaded.value == map[] {
      var read := Read(defaultsFile);
      if read.Failure? {
        return Failure(read.error);
      }
      defaults := read.value;
    }
    var reg := Init(loaded.value, defaults);
    return Success(reg);
  }
}

/**
 * Identifier prefixes of the internal `trellis:` scheme, the structural container of an
 * identifier, and the collectors that gather streams of triples or quads into graphs and
 * datasets.
 */
module TrellisUtils {
  import opened Wrappers
  import opened Rdf

  /** The internal scheme and the prefixes built on it. */
  const TrellisScheme: string := "trellis:"
  const TrellisDataPrefix: string := TrellisScheme + "data/"
  const TrellisBnodePrefix: string := TrellisScheme + "bnode/"
  const TrellisSessionPrefix: string := TrellisScheme + "session/"

  /** What Java's `String.substring` throws when the start index is past the end. */
  datatype StringIndexOutOfBounds = StringIndexOutOfBounds

  /** Each prefix is the scheme followed by one fixed segment; the data prefix is the root identifier. */
  lemma PrefixConstants()
    ensures TrellisScheme == "trellis:"
    ensures TrellisDataPrefix == "trellis:data/" && |TrellisDataPrefix| == 13
    ensures TrellisBnodePrefix == "trellis:bnode/"
    ensures TrellisSessionPrefix == "trellis:session/"
    ensures TrellisScheme < TrellisDataPrefix && TrellisScheme < TrellisBnodePrefix
    ensures TrellisScheme < TrellisSessionPrefix
  {
  }

  /** Java's `String.lastIndexOf(char)`: the last position holding `c`, or -1 if there is none. */
  function LastIndexOf(s: string, c: char): (r: int)
    ensures -1 <= r < |s|
    ensures r >= 0 ==> s[r] == c
    ensures forall k | r < k < |s| :: s[k] != c
  {
    if |s| == 0 then -1
    else if s[|s| - 1] == c then |s| - 1
    else LastIndexOf(s[..|s| - 1], c)
  }

  /**
   * `p` is `path` with its last segment dropped: `p` is a prefix of `path` that is followed by
   * the last '/' of `path`, or `p` is empty when `path` has no '/' at all.
   */
  ghost predicate DropsLastSegment(path: string, p: string) {
    && p <= path
    && (forall k | |p| < k < |path| :: path[k] != '/')
    && ((|p| < |path| && path[|p|] == '/') || (p == [] && forall k | 0 <= k < |path| :: path[k] != '/'))
  }

  /** Dropping the last segment has exactly one answer, so the predicate fully specifies a container. */
  lemma DropsLastSegmentUnique(path: string, p: string, q: string)
    requires DropsLastSegment(path, p) && DropsLastSegment(path, q)
    ensures p == q
  {
  }

  /**
   * The structural container of an identifier: `None` for the root, otherwise the data prefix
   * followed by the path (what comes after the first 13 characters) with its last segment dropped.
   * An identifier shorter than the data prefix makes `substring` throw.
   */
  function GetContainer(identifier: string): (r: Result<Option<string>, StringIndexOutOfBounds>)
    ensures r == Success(None) <==> identifier == TrellisDataPrefix
    ensures r.Failure? <==> |identifier| < |TrellisDataPrefix|
    ensures r.Success? && r.value.Some? ==>
      && TrellisDataPrefix <= r.value.value
      && DropsLastSegment(identifier[|TrellisDataPrefix|..], r.value.value[|TrellisDataPrefix|..])
  {
    if identifier == TrellisDataPrefix then Success(None)
    else if |identifier| < |TrellisDataPrefix| then Failure(StringIndexOutOfBounds)
    else
      var path := identifier[|TrellisDataPrefix|..];
      var last := LastIndexOf(path, '/');
      var index := if last < 0 then 0 else last;
      Success(Some(TrellisDataPrefix + path[..index]))
  }

  /** Below the root, the container is a strictly shorter prefix of the identifier, itself under the root. */
  lemma ContainerIsStrictPrefix(identifier: string)
    requires TrellisDataPrefix <= identifier && identifier != TrellisDataPrefix
    ensures GetContainer(identifier).Success? && GetContainer(identifier).value.Some?
    ensures TrellisDataPrefix <= GetContainer(identifier).value.value < identifier
  {
  }

  /** A resource directly under the root has the root as its container. */
  lemma ContainerOfTopLevelResource()
    ensures GetContainer("trellis:data/resource") == Success(Some("trellis:data/"))
  {
    ContainerIsStrictPrefix("trellis:data/resource");
    var c := GetContainer("trellis:data/resource").value.value;
    assert "trellis:data/resource"[13..] == "resource";
    assert DropsLastSegment("resource", "");
    DropsLastSegmentUnique("resource", "", c[13..]);
    assert c == TrellisDataPrefix + c[13..];
    assert c == "trellis:data/";
  }

  /** The root resource has no container. */
  lemma RootHasNoContainer()
    ensures GetContainer("trellis:data/") == Success(None)
  {
  }

  /** A child resource has its parent resource as its container. */
  lemma ContainerOfChildResource()
    ensures GetContainer("trellis:data/resource/child") == Success(Some("trellis:data/resource"))
  {
    ContainerIsStrictPrefix("trellis:data/resource/child");
    var c := GetContainer("trellis:data/resource/child").value.value;
    assert "trellis:data/resource/child"[13..] == "resource/child";
    assert "resource/child"[8] == '/';
    assert DropsLastSegment("resource/child", "resource");
    DropsLastSegmentUnique("resource/child", "resource", c[13..]);
    assert c == TrellisDataPrefix + c[13..];
    assert c == "trellis:data/" + "resource";
    assert "trellis:data/" + "resource" == "trellis:data/resource";
  }

  /**
   * The chain of containers from an identifier under the root up to the root: each element is
   * the container of the one before it, so repeated application of `GetContainer` reaches the root.
   */
  function ContainerChain(identifier: string): (chain: seq<string>)
    requires TrellisDataPrefix <= identifier
    ensures |chain| >= 1 && chain[0] == identifier && chain[|chain| - 1] == TrellisDataPrefix
    ensures forall i | 0 <= i < |chain| :: TrellisDataPrefix <= chain[i]
    ensures forall i | 0 <= i < |chain| - 1 :: GetContainer(chain[i]) == Success(Some(chain[i + 1]))
    ensures GetContainer(chain[|chain| - 1]) == Success(None)
    ensures |chain| <= |identifier| - |TrellisDataPrefix| + 1
    decreases |identifier|
  {
    if identifier == TrellisDataPrefix then [identifier]
    else
      ContainerIsStrictPrefix(identifier);
      var container := GetContainer(identifier).value.value;
      [identifier] + ContainerChain(container)
  }

  // Collectors. A Commons RDF graph or dataset is a set: adding an element already present
  // changes nothing. A stream is the sequence of elements it delivers.

  /** The collector's supplier: a fresh, empty graph or dataset. */
  function Supply<T>(): (r: set<T>)
    ensures |r| == 0
  {
    {}
  }

  /** The collector's accumulator: `Graph::add` / `Dataset::add`. */
  function Accumulate<T(!new)>(acc: set<T>, x: T): (r: set<T>)
    ensures forall y :: y in r <==> y in acc || y == x
    ensures x in acc ==> r == acc
  {
    acc + {x}
  }

  /** The collector's combiner: every element of the right-hand side is added to the left-hand side. */
  function Combine<T(!new)>(left: set<T>, right: set<T>): (r: set<T>)
    ensures forall y :: y in r <==> y in left || y in right
    ensures right <= left ==> r == left
    ensures |r| <= |left| + |right|
  {
    left + right
  }

  /** The dataset collector's finisher. */
  function Finish<T(!new)>(acc: set<T>): (r: set<T>)
    ensures forall y :: y in r <==> y in acc
  {
    acc
  }

  /** Folds a stream through supplier, accumulator and finisher, in stream order. */
  function Collect<T(!new)>(xs: seq<T>): (r: set<T>)
    ensures forall x :: x in r <==> x in xs
    ensures |r| <= |xs|
  {
    if |xs| == 0 then Supply()
    else Finish(Accumulate(Collect(xs[..|xs| - 1]), xs[|xs| - 1]))
  }

  /** The finisher is the identity (the collector declares IDENTITY_FINISH). */
  lemma FinisherIsIdentity<T(!new)>(acc: set<T>)
    ensures Finish(acc) == acc
  {
  }

  /**
   * Splitting a stream, collecting the parts separately and combining them gives the same
   * result as collecting sequentially, in either order of combination (the collector is UNORDERED).
   */
  lemma CollectSplit<T(!new)>(xs: seq<T>, ys: seq<T>)
    ensures Collect(xs + ys) == Combine(Collect(xs), Collect(ys))
    ensures Combine(Collect(xs), Collect(ys)) == Combine(Collect(ys), Collect(xs))
  {
  }

  /** `toGraph`: a stream of triples collected into a graph. */
  function ToGraph(triples: seq<Triple>): (g: set<Triple>)
    ensures forall t :: t in g <==> t in triples
    ensures |g| <= |triples|
  {
    Collect(triples)
  }

  /** `toDataset`: a stream of quads collected into a dataset. */
  function ToDataset(quads: seq<Quad>): (d: set<Quad>)
    ensures forall q :: q in d <==> q in quads
    ensures |d| <= |quads|
  {
    Collect(quads)
  }
}

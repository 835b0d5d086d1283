/**
 * The inline variant (content-simple.js). Once, when the page is ready, every
 * accepted text node of the body is split around the IPv4-shaped strings it
 * holds: the text between them stays text, and each string becomes a wrapper
 * element that shows the IP and, once looked up, its flag, location and ISP.
 * The lookup asks the secondary endpoint only; a cached record is shown at
 * once.
 *
 * The DOM is reduced to what the script reads and writes: a text node's text
 * and parent element, an element's tag name and class list, and the location
 * part of each wrapper. The node list the tree walker visits is an input, in
 * document order.
 */
module InlineLocator {
  import opened Wrappers
  import opened Text
  import IpPattern
  import Flag
  import Geo
  import Protocol

  const ProcessedClass: string := "ip-locator-processed"
  const WrapperClass: string := "ip-locator-wrapper"

  class Element {
    const tagName: string
    var classList: set<string>

    constructor(tagName: string, classes: set<string>)
      ensures this.tagName == tagName && classList == classes
    {
      this.tagName := tagName;
      classList := classes;
    }
  }

  datatype TextNode = TextNode(text: string, parent: Option<Element>)

  /** The parent elements of the nodes. */
  function Parents(nodes: seq<TextNode>): set<Element> {
    set n | n in nodes && n.parent.Some? :: n.parent.value
  }

  /** The tree walker's `acceptNode`: rejects text in scripts, styles, processed or wrapper elements. */
  predicate Accepted(n: TextNode)
    reads if n.parent.Some? then {n.parent.value} else {}
  {
    n.parent.None? ||
    !(n.parent.value.tagName == "SCRIPT" || n.parent.value.tagName == "STYLE" ||
      ProcessedClass in n.parent.value.classList || WrapperClass in n.parent.value.classList)
  }

  /** `getTextNodes`: the accepted nodes, in order. */
  function AcceptedNodes(nodes: seq<TextNode>): (r: seq<TextNode>)
    reads Parents(nodes)
    ensures |r| <= |nodes|
    ensures forall n :: n in r ==> n in nodes && Accepted(n)
    ensures forall n :: n in nodes && Accepted(n) ==> n in r
    ensures |nodes| == 1 ==> r == if Accepted(nodes[0]) then nodes else []
  {
    if nodes == [] then []
    else
      var init := nodes[..|nodes| - 1];
      var last := nodes[|nodes| - 1];
      assert nodes == init + [last];
      assert Parents(init) <= Parents(nodes);
      AcceptedNodes(init) + (if Accepted(last) then [last] else [])
  }

  /** The walker keeps document order: the accepted nodes of a + b are those of a, then those of b. */
  lemma {:induction false} AcceptedNodesAppend(a: seq<TextNode>, b: seq<TextNode>)
    ensures AcceptedNodes(a + b) == AcceptedNodes(a) + AcceptedNodes(b)
  {
    if b == [] {
      assert a + b == a;
    } else {
      var init := b[..|b| - 1];
      assert (a + b)[..|a + b| - 1] == a + init;
      assert (a + b)[|a + b| - 1] == b[|b| - 1];
      AcceptedNodesAppend(a, init);
    }
  }

  /** The location part of a wrapper. */
  datatype Display =
    | Pending
    | ShowError(message: string)
    | ShowLocation(flag: string, place: string, isp: Field)

  /** `updateLocationDisplay(wrapper, res)`. */
  function Render(res: Geo.Resolution<Geo.LocationInfo>): Display {
    match res
    case Failed(m) => ShowError(m)
    case Located(info) =>
      ShowLocation(Flag.CountryFlag(info.countryCode, Flag.EarthGlobe),
                   LocationText(info.city, info.region, info.country), IfTruthy(info.isp))
  }

  /** `<span class="ip-locator-wrapper">` for one IP. */
  class Wrapper {
    const ip: string
    var display: Display

    constructor(ip: string)
      ensures this.ip == ip && display == Pending
    {
      this.ip := ip;
      display := Pending;
    }

    method UpdateLocationDisplay(res: Geo.Resolution<Geo.LocationInfo>)
      modifies this
      ensures display == Render(res)
    {
      display := Render(res);
    }
  }

  /** A child of the fragment that replaces a text node. */
  datatype Fragment = Plain(text: string) | Wrap(w: Wrapper)

  /** The fragment's text, each wrapper read as its IP. */
  function Spell(fs: seq<Fragment>): string {
    if fs == [] then ""
    else
      var last := fs[|fs| - 1];
      Spell(fs[..|fs| - 1]) + (if last.Plain? then last.text else last.w.ip)
  }

  /** The IPs of the wrappers, in order. */
  function Addresses(fs: seq<Fragment>): seq<string> {
    if fs == [] then []
    else
      var last := fs[|fs| - 1];
      Addresses(fs[..|fs| - 1]) + (if last.Wrap? then [last.w.ip] else [])
  }

  /** Where in the spelled text each wrapper starts. */
  function Offsets(fs: seq<Fragment>): seq<int> {
    if fs == [] then []
    else
      var last := fs[|fs| - 1];
      Offsets(fs[..|fs| - 1]) + (if last.Wrap? then [|Spell(fs[..|fs| - 1])|] else [])
  }

  /** The wrapper objects of the fragment. */
  function WrapperSet(fs: seq<Fragment>): set<Wrapper> {
    set k | 0 <= k < |fs| && fs[k].Wrap? :: fs[k].w
  }

  /** No plain piece is empty. */
  predicate NoEmptyPlain(fs: seq<Fragment>) {
    forall k :: 0 <= k < |fs| && fs[k].Plain? ==> fs[k].text != ""
  }

  /** Every wrapper shows what it showed at creation, given the cache. */
  predicate ShowsCache(fs: seq<Fragment>, cache: map<string, Geo.LocationInfo>)
    reads WrapperSet(fs)
  {
    forall k :: 0 <= k < |fs| && fs[k].Wrap? ==> fs[k].w.display == AtCreation(cache, fs[k].w.ip)
  }

  lemma {:induction false} Appended(fs: seq<Fragment>, f: Fragment)
    ensures Spell(fs + [f]) == Spell(fs) + (if f.Plain? then f.text else f.w.ip)
    ensures Addresses(fs + [f]) == Addresses(fs) + (if f.Wrap? then [f.w.ip] else [])
    ensures Offsets(fs + [f]) == Offsets(fs) + (if f.Wrap? then [|Spell(fs)|] else [])
    ensures WrapperSet(fs + [f]) == WrapperSet(fs) + (if f.Wrap? then {f.w} else {})
    ensures NoEmptyPlain(fs) && (f.Plain? ==> f.text != "") ==> NoEmptyPlain(fs + [f])
  {
    assert (fs + [f])[..|fs|] == fs;
    if f.Wrap? {
      assert (fs + [f])[|fs|].w == f.w;
    }
  }

  lemma {:induction false} AppendedShows(fs: seq<Fragment>, f: Fragment, cache: map<string, Geo.LocationInfo>)
    requires ShowsCache(fs, cache) && (f.Wrap? ==> f.w.display == AtCreation(cache, f.w.ip))
    ensures ShowsCache(fs + [f], cache)
  {
    Appended(fs, f);
    forall k | 0 <= k < |fs + [f]| && (fs + [f])[k].Wrap?
      ensures (fs + [f])[k].w.display == AtCreation(cache, (fs + [f])[k].w.ip)
    {
      if k < |fs| {
        assert (fs + [f])[k] == fs[k];
        assert fs[k].w in WrapperSet(fs);
      }
    }
  }

  // ---------------------------------------------------------------------------
  // The cursor of the splitting loop
  // ---------------------------------------------------------------------------

  /** `lastIndex` after the first k matches. */
  function Cursor(text: string, ms: seq<string>, k: nat): int
    requires k <= |ms|
    decreases k, 0
  {
    if k == 0 then 0 else Position(text, ms, k - 1) + |ms[k - 1]|
  }

  /** `text.indexOf(ms[k], lastIndex)`: where the k-th wrapper goes. */
  function Position(text: string, ms: seq<string>, k: nat): int
    requires k < |ms|
    decreases k, 1
  {
    var from := Cursor(text, ms, k);
    IndexOf(text, ms[k], if from < 0 then 0 else from)
  }

  /** The first k wrapper positions. */
  function Positions(text: string, ms: seq<string>, k: nat): (ps: seq<int>)
    requires k <= |ms|
    ensures |ps| == k && forall j :: 0 <= j < k ==> ps[j] == Position(text, ms, j)
  {
    if k == 0 then [] else Positions(text, ms, k - 1) + [Position(text, ms, k - 1)]
  }

  /**
   * The fragment spells out the text, holds no empty plain piece, and has
   * one wrapper per match, in order.
   */
  predicate Spelled(text: string, fs: seq<Fragment>) {
    Spell(fs) == text && NoEmptyPlain(fs) && Addresses(fs) == IpPattern.Matches(text)
  }

  /** The k-th wrapper starts where the k-th search found its IP. */
  predicate Placed(text: string, fs: seq<Fragment>) {
    var ms := IpPattern.Matches(text);
    Offsets(fs) == Positions(text, ms, |ms|)
  }

  /**
   * Every search of the loop finds its IP: the k-th search, from where the
   * previous IP ended, lands on an occurrence of the k-th match.
   */
  predicate Found(text: string, ms: seq<string>) {
    forall k :: 0 <= k < |ms| ==> Position(text, ms, k) >= 0 && OccursAt(text, ms[k], Position(text, ms, k))
  }

  /**
   * The loop's state after i matches: the cursor is where the searches left
   * it, and the fragment so far spells the text up to it, with a wrapper for
   * each match so far at its search position.
   */
  predicate Progress(text: string, ms: seq<string>, i: nat, lastIndex: nat, frags: seq<Fragment>)
    requires i <= |ms|
  {
    lastIndex <= |text| && lastIndex == Cursor(text, ms, i) &&
    Spell(frags) == text[..lastIndex] && NoEmptyPlain(frags) &&
    Addresses(frags) == ms[..i] && Offsets(frags) == Positions(text, ms, i)
  }

  /**
   * One turn of the `forEach` over the matches, on the fragment: the text
   * since the cursor, if any, then the wrapper found at ipIndex.
   */
  function Step(text: string, lastIndex: nat, ipIndex: nat, frags: seq<Fragment>, w: Wrapper): seq<Fragment>
    requires lastIndex <= ipIndex <= |text|
  {
    Gap(text, lastIndex, ipIndex, frags) + [Wrap(w)]
  }

  /** The text between the cursor and the IP, as a plain piece when it is not empty. */
  function Gap(text: string, lastIndex: nat, ipIndex: nat, frags: seq<Fragment>): seq<Fragment>
    requires lastIndex <= ipIndex <= |text|
  {
    if ipIndex > lastIndex then frags + [Plain(text[lastIndex..ipIndex])] else frags
  }

  /** The gap piece spells the text up to the IP and holds no wrapper. */
  lemma AppendGap(text: string, lastIndex: nat, ipIndex: nat, frags: seq<Fragment>)
    requires lastIndex <= ipIndex <= |text|
    requires Spell(frags) == text[..lastIndex] && NoEmptyPlain(frags)
    ensures var mid := Gap(text, lastIndex, ipIndex, frags);
            Spell(mid) == text[..ipIndex] && NoEmptyPlain(mid) &&
            Addresses(mid) == Addresses(frags) && Offsets(mid) == Offsets(frags)
  {
    if ipIndex > lastIndex {
      Appended(frags, Plain(text[lastIndex..ipIndex]));
      SliceJoin(text, lastIndex, ipIndex);
    }
  }

  /** After a turn the fragment spells the text up to the end of the IP. */
  lemma AppendPieces(text: string, lastIndex: nat, ipIndex: nat, frags: seq<Fragment>, w: Wrapper)
    requires lastIndex <= ipIndex && OccursAt(text, w.ip, ipIndex)
    requires Spell(frags) == text[..lastIndex] && NoEmptyPlain(frags)
    ensures var out := Step(text, lastIndex, ipIndex, frags, w);
            Spell(out) == text[..ipIndex + |w.ip|] && NoEmptyPlain(out) &&
            Addresses(out) == Addresses(frags) + [w.ip] && Offsets(out) == Offsets(frags) + [ipIndex]
  {
    var mid := Gap(text, lastIndex, ipIndex, frags);
    AppendGap(text, lastIndex, ipIndex, frags);
    Appended(mid, Wrap(w));
    SliceJoin(text, ipIndex, ipIndex + |w.ip|);
  }

  /** A turn adds one wrapper object, and every wrapper still shows what it showed at creation. */
  lemma StepShows(text: string, lastIndex: nat, ipIndex: nat, frags: seq<Fragment>, w: Wrapper,
                  cache: map<string, Geo.LocationInfo>)
    requires lastIndex <= ipIndex <= |text|
    requires ShowsCache(frags, cache) && w.display == AtCreation(cache, w.ip)
    ensures WrapperSet(Step(text, lastIndex, ipIndex, frags, w)) == WrapperSet(frags) + {w}
    ensures ShowsCache(Step(text, lastIndex, ipIndex, frags, w), cache)
  {
    var mid := Gap(text, lastIndex, ipIndex, frags);
    if ipIndex > lastIndex {
      Appended(frags, Plain(text[lastIndex..ipIndex]));
      AppendedShows(frags, Plain(text[lastIndex..ipIndex]), cache);
    }
    Appended(mid, Wrap(w));
    AppendedShows(mid, Wrap(w), cache);
  }

  /** One turn of the loop keeps its state. */
  lemma ProgressStep(text: string, ms: seq<string>, i: nat, lastIndex: nat, frags: seq<Fragment>, w: Wrapper)
    requires Found(text, ms) && i < |ms| && w.ip == ms[i]
    requires Progress(text, ms, i, lastIndex, frags)
    ensures var ipIndex := IndexOf(text, ms[i], lastIndex);
            lastIndex <= ipIndex && ipIndex + |ms[i]| <= |text| &&
            Progress(text, ms, i + 1, ipIndex + |ms[i]|, Step(text, lastIndex, ipIndex, frags, w))
  {
    var ipIndex := CursorNext(text, ms, i, lastIndex);
    AppendPieces(text, lastIndex, ipIndex, frags, w);
  }

  /** One search of the loop: it finds the IP, and the cursor moves past it. */
  lemma CursorNext(text: string, ms: seq<string>, i: nat, lastIndex: nat) returns (ipIndex: nat)
    requires Found(text, ms) && i < |ms| && lastIndex == Cursor(text, ms, i)
    ensures ipIndex == IndexOf(text, ms[i], lastIndex) == Position(text, ms, i)
    ensures lastIndex <= ipIndex && OccursAt(text, ms[i], ipIndex)
    ensures Cursor(text, ms, i + 1) == ipIndex + |ms[i]|
    ensures Positions(text, ms, i + 1) == Positions(text, ms, i) + [ipIndex]
    ensures ms[..i + 1] == ms[..i] + [ms[i]]
  {
    ipIndex := Position(text, ms, i);
  }

  /** After the last match: the rest of the text, if any, as a plain piece. */
  function Tail(text: string, lastIndex: nat, frags: seq<Fragment>): seq<Fragment>
    requires lastIndex <= |text|
  {
    if lastIndex < |text| then frags + [Plain(text[lastIndex..])] else frags
  }

  /** Once every match is placed, the tail completes the spelling of the text. */
  lemma Finish(text: string, ms: seq<string>, lastIndex: nat, frags: seq<Fragment>, cache: map<string, Geo.LocationInfo>)
    requires Progress(text, ms, |ms|, lastIndex, frags) && ShowsCache(frags, cache)
    ensures var out := Tail(text, lastIndex, frags);
            Spell(out) == text && NoEmptyPlain(out) && Addresses(out) == ms &&
            Offsets(out) == Positions(text, ms, |ms|) &&
            WrapperSet(out) == WrapperSet(frags) && ShowsCache(out, cache)
  {
    if lastIndex < |text| {
      var rest := Plain(text[lastIndex..]);
      Appended(frags, rest);
      AppendedShows(frags, rest, cache);
      SliceJoin(text, lastIndex, |text|);
    }
    assert text[..|text|] == text;
    assert ms[..|ms|] == ms;
  }

  lemma SliceJoin(text: string, a: nat, b: nat)
    requires a <= b <= |text|
    ensures text[..b] == text[..a] + text[a..b]
  {
  }

  /**
   * Every search finds its IP, at or after the cursor and no later than the
   * match it stands for; so the cursor never passes the next match and the
   * wrappers never overlap.
   */
  lemma {:induction false} SearchFindsMatch(text: string, k: nat)
    requires k < |IpPattern.Matches(text)|
    ensures var ms := IpPattern.Matches(text);
            var r := IpPattern.Scan(text, 0);
            0 <= Cursor(text, ms, k) <= Position(text, ms, k) <= r[k].start &&
            OccursAt(text, ms[k], Position(text, ms, k)) &&
            Position(text, ms, k) + |ms[k]| <= r[k].end
  {
    var ms := IpPattern.Matches(text);
    var r := IpPattern.Scan(text, 0);
    if k > 0 {
      SearchFindsMatch(text, k - 1);
      assert r[k - 1].end <= r[k].start;
    }
    assert OccursAt(text, ms[k], r[k].start);
    IndexOfFinds(text, ms[k], Cursor(text, ms, k), r[k].start);
  }

  /** The searches of the loop find every match of the pattern. */
  lemma FoundMatches(text: string)
    ensures Found(text, IpPattern.Matches(text))
  {
    var ms := IpPattern.Matches(text);
    forall k | 0 <= k < |ms|
      ensures Position(text, ms, k) >= 0 && OccursAt(text, ms[k], Position(text, ms, k))
    {
      SearchFindsMatch(text, k);
    }
  }

  /**
   * The k-th wrapper lands on the k-th match exactly when its IP does not
   * occur between the cursor and the match; otherwise `indexOf` stops at that
   * earlier occurrence, which is not a match (in "a1.1.1.1 1.1.1.1" the only
   * match starts at 9, but its wrapper goes to 1).
   */
  lemma PositionAtMatch(text: string, k: nat)
    requires k < |IpPattern.Matches(text)|
    ensures var ms := IpPattern.Matches(text);
            var r := IpPattern.Scan(text, 0);
            k < |r| &&
            (Position(text, ms, k) == r[k].start <==>
               forall j: nat :: Cursor(text, ms, k) <= j < r[k].start ==> !OccursAt(text, ms[k], j))
  {
    SearchFindsMatch(text, k);
  }

  // ---------------------------------------------------------------------------
  // Counting over the pass
  // ---------------------------------------------------------------------------

  /** How many of the nodes hold a match. */
  function MatchingCount(ns: seq<TextNode>): nat {
    if ns == [] then 0
    else MatchingCount(ns[..|ns| - 1]) + (if IpPattern.Matches(ns[|ns| - 1].text) != [] then 1 else 0)
  }

  /** How many matches the nodes hold in all. */
  function MatchTotal(ns: seq<TextNode>): nat {
    if ns == [] then 0
    else MatchTotal(ns[..|ns| - 1]) + |IpPattern.Matches(ns[|ns| - 1].text)|
  }

  /** Counting one more node. */
  lemma CountStep(ns: seq<TextNode>, i: nat)
    requires i < |ns|
    ensures MatchingCount(ns[..i + 1]) == MatchingCount(ns[..i]) + (if IpPattern.Matches(ns[i].text) != [] then 1 else 0)
    ensures MatchTotal(ns[..i + 1]) == MatchTotal(ns[..i]) + |IpPattern.Matches(ns[i].text)|
  {
    assert ns[..i + 1][..i] == ns[..i];
  }

  /** What a wrapper shows right after creation, given the cache. */
  function AtCreation(cache: map<string, Geo.LocationInfo>, ip: string): Display {
    if ip in cache then Render(Geo.Located(cache[ip])) else Pending
  }

  /** The message listener, on the cache and the wrapper counter. */
  function Dispatch(cache: map<string, Geo.LocationInfo>, ipCount: nat, action: string)
    : Protocol.Handled<(map<string, Geo.LocationInfo>, nat)>
  {
    if action == Protocol.GetStats then
      Protocol.Handled((cache, ipCount), Some(Protocol.Reply(Some(true), Some(|cache|), None, Some(ipCount))))
    else if action == Protocol.ClearCache then
      Protocol.Handled((map[], ipCount), Some(Protocol.Ack(true)))
    else
      Protocol.Handled((cache, ipCount), Some(Protocol.Ack(false)))
  }

  /** `clearCache` keeps the wrapper counter; `test` is unknown here and refused. */
  lemma MessagesKeepCount(cache: map<string, Geo.LocationInfo>, ipCount: nat)
    ensures Dispatch(cache, ipCount, Protocol.ClearCache) == Protocol.Handled((map[], ipCount), Some(Protocol.Ack(true)))
    ensures Dispatch(cache, ipCount, Protocol.GetStats).reply ==
            Some(Protocol.Reply(Some(true), Some(|cache|), None, Some(ipCount)))
    ensures Dispatch(cache, ipCount, Protocol.Test) == Protocol.Handled((cache, ipCount), Some(Protocol.Ack(false)))
  {
  }

  // ---------------------------------------------------------------------------
  // The object
  // ---------------------------------------------------------------------------

  class Locator {
    var cache: map<string, Geo.LocationInfo>
    var ipCount: nat

    constructor()
      ensures cache == map[] && ipCount == 0
    {
      cache := map[];
      ipCount := 0;
    }

    /** `getTextNodes`: the walker's loop, pushing every accepted node. */
    method GetTextNodes(nodes: seq<TextNode>) returns (accepted: seq<TextNode>)
      ensures accepted == AcceptedNodes(nodes)
    {
      accepted := [];
      var i := 0;
      while i < |nodes|
        invariant 0 <= i <= |nodes|
        invariant accepted == AcceptedNodes(nodes[..i])
      {
        assert nodes[..i + 1][..i] == nodes[..i];
        assert Parents(nodes[..i + 1]) <= Parents(nodes);
        if Accepted(nodes[i]) {
          accepted := accepted + [nodes[i]];
        }
        i := i + 1;
      }
      assert nodes[..i] == nodes;
    }

    /** `createIPWrapper(ip)`: counts the wrapper and starts its lookup. */
    method CreateIPWrapper(ip: string) returns (w: Wrapper)
      modifies this
      ensures fresh(w) && w.ip == ip && w.display == AtCreation(cache, ip)
      ensures ipCount == old(ipCount) + 1 && cache == old(cache)
    {
      w := new Wrapper(ip);
      ipCount := ipCount + 1;
      if ip in cache {
        w.UpdateLocationDisplay(Geo.Located(cache[ip]));
      }
    }

    /** The rest of `getLocationInfo(ip, wrapper)`, once the fetch settled. */
    method FinishLookup(w: Wrapper, s: Geo.Fetch<Geo.IpApiBody>)
      modifies this, w
      ensures cache == Geo.Store(old(cache), w.ip, Geo.InlineResolve(s))
      ensures w.display == Render(Geo.InlineResolve(s)) && ipCount == old(ipCount)
    {
      var res := Geo.InlineResolve(s);
      if res.Located? {
        cache := cache[w.ip := res.info];
      }
      w.UpdateLocationDisplay(res);
    }

    /**
     * `processTextNode`: without a match nothing happens; otherwise the parent
     * is marked processed and the node's text is split (`Split`).
     */
    method ProcessTextNode(node: TextNode) returns (changed: bool, frags: seq<Fragment>)
      modifies this, if node.parent.Some? then {node.parent.value} else {}
      ensures changed <==> IpPattern.Matches(node.text) != []
      ensures !changed ==> frags == [] && ipCount == old(ipCount) && cache == old(cache) &&
                           (node.parent.Some? ==> node.parent.value.classList == old(node.parent.value.classList))
      ensures changed && node.parent.Some? ==>
                node.parent.value.classList == old(node.parent.value.classList) + {ProcessedClass} && !Accepted(node)
      ensures changed ==> Spelled(node.text, frags)
      ensures changed ==> Placed(node.text, frags)
      ensures fresh(WrapperSet(frags)) && ShowsCache(frags, cache)
      ensures ipCount == old(ipCount) + |IpPattern.Matches(node.text)| && cache == old(cache)
    {
      if IpPattern.Matches(node.text) == [] {
        return false, [];
      }
      if node.parent.Some? {
        node.parent.value.classList := node.parent.value.classList + {ProcessedClass};
      }
      FoundMatches(node.text);
      frags := Split(node.text, IpPattern.Matches(node.text));
      changed := true;
    }

    /**
     * The splitting loop of `processTextNode`: the text is cut into plain
     * pieces and one wrapper per match, the k-th wrapper where `indexOf` from
     * the cursor finds the k-th match.
     */
    method Split(text: string, ms: seq<string>) returns (frags: seq<Fragment>)
      requires Found(text, ms)
      modifies this
      ensures Spell(frags) == text && NoEmptyPlain(frags) && Addresses(frags) == ms
      ensures Offsets(frags) == Positions(text, ms, |ms|)
      ensures fresh(WrapperSet(frags)) && ShowsCache(frags, cache)
      ensures ipCount == old(ipCount) + |ms| && cache == old(cache)
    {
      frags := [];
      var lastIndex: nat := 0;
      var i := 0;
      while i < |ms|
        invariant 0 <= i <= |ms|
        invariant Progress(text, ms, i, lastIndex, frags)
        invariant fresh(WrapperSet(frags)) && ShowsCache(frags, cache)
        invariant ipCount == old(ipCount) + i && cache == old(cache)
      {
        var ip := ms[i];
        var ipIndex := IndexOf(text, ip, lastIndex);
        var w := CreateIPWrapper(ip);
        ProgressStep(text, ms, i, lastIndex, frags, w);
        StepShows(text, lastIndex, ipIndex, frags, w, cache);
        frags := Step(text, lastIndex, ipIndex, frags, w);
        lastIndex := ipIndex + |ip|;
        i := i + 1;
      }
      Finish(text, ms, lastIndex, frags, cache);
      if lastIndex < |text| {
        frags := frags + [Plain(text[lastIndex..])];
      }
    }

    /**
     * `processPage`: the accepted nodes are collected first, then each is
     * processed; the result is the number of nodes that held a match.
     */
    method ProcessPage(nodes: seq<TextNode>) returns (processedCount: nat)
      modifies this, Parents(nodes)
      ensures processedCount == MatchingCount(old(AcceptedNodes(nodes)))
      ensures ipCount == old(ipCount) + MatchTotal(old(AcceptedNodes(nodes))) && cache == old(cache)
    {
      var textNodes := GetTextNodes(nodes);
      processedCount := 0;
      var i := 0;
      while i < |textNodes|
        invariant 0 <= i <= |textNodes|
        invariant processedCount == MatchingCount(textNodes[..i])
        invariant ipCount == old(ipCount) + MatchTotal(textNodes[..i]) && cache == old(cache)
      {
        var node := textNodes[i];
        assert node in nodes;
        CountStep(textNodes, i);
        var changed, _ := ProcessTextNode(node);
        if changed {
          processedCount := processedCount + 1;
        }
        i := i + 1;
      }
      assert textNodes[..i] == textNodes;
    }

    method HandleMessage(action: string) returns (reply: Option<Protocol.Reply>)
      modifies this
      ensures Protocol.Handled((cache, ipCount), reply) == Dispatch(old(cache), old(ipCount), action)
    {
      if action == Protocol.GetStats {
        reply := Some(Protocol.Reply(Some(true), Some(|cache|), None, Some(ipCount)));
      } else if action == Protocol.ClearCache {
        cache := map[];
        reply := Some(Protocol.Ack(true));
      } else {
        reply := Some(Protocol.Ack(false));
      }
    }
  }
}

/**
 * The hover variant (content-debug.js). Hovering over an element whose text
 * holds an IPv4-shaped string shows a tooltip for its first match; the tooltip
 * follows the mouse while the lookup is pending and stays put once a result
 * is rendered. A result is rendered only while its IP is still the current
 * one, so a late answer for an IP the mouse has left is dropped.
 *
 * The asynchronous `getLocationInfo` is cut at its first `await`: the part
 * before it (cache check, counter) runs inside the event that started it
 * (`Begun`), the part after it is a separate step once both fetches settled
 * (`Completed`). Every other event is one step.
 *
 * The state is specified by functions on a `State` value; the class
 * `Locator` keeps the same state in fields and its methods are proved to make
 * exactly those transitions.
 */
module HoverLocator {
  import opened Wrappers
  import opened Text
  import IpPattern
  import Flag
  import Placement
  import Geo
  import Protocol

  /** What the tooltip shows. */
  datatype View =
    | Blank
    | Loading(ip: string)
    | ShowError(ip: string, message: string)
    | ShowLocation(ip: string, flag: string, place: string, isp: Field)

  datatype State = State(
    cache: map<string, Geo.LocationInfo>,
    queryCount: nat,
    currentIP: Option<string>,
    tooltipFixed: bool,
    visible: bool,
    view: View,
    left: real,
    top: real)

  /** The IP the `test` message shows. */
  const TestIP: string := "8.8.8.8"

  /** The tooltip's content for a resolution (`updateTooltip` after its guard). */
  function Render(ip: string, res: Geo.Resolution<Geo.LocationInfo>): View {
    match res
    case Failed(m) => ShowError(ip, m)
    case Located(info) =>
      ShowLocation(ip, Flag.CountryFlag(info.countryCode, Flag.EarthGlobe),
                   LocationText(info.city, info.region, info.country), IfTruthy(info.isp))
  }

  // ---------------------------------------------------------------------------
  // Transitions
  // ---------------------------------------------------------------------------

  /** After construction: empty cache, no query, nothing shown. */
  function Init(): State {
    State(map[], 0, None, false, false, Blank, 0.0, 0.0)
  }

  /** `updateTooltipPosition(x, y)` for a viewport of vw x vh. */
  function Positioned(s: State, x: real, y: real, vw: real, vh: real): State {
    s.(left := Placement.LeftEdge(x, vw, Placement.HoverBox), top := Placement.TopEdge(y, vh, Placement.HoverBox))
  }

  /** `updateTooltip(ip, res)`: dropped unless ip is current; otherwise fixes and renders. */
  function Updated(s: State, ip: string, res: Geo.Resolution<Geo.LocationInfo>): State {
    if s.currentIP != Some(ip) then s else s.(tooltipFixed := true, view := Render(ip, res))
  }

  /** `getLocationInfo(ip)` up to its first `await`. */
  function Begun(s: State, ip: string): State {
    if ip in s.cache then Updated(s, ip, Geo.Located(s.cache[ip]))
    else s.(queryCount := s.queryCount + 1)
  }

  /** The rest of `getLocationInfo(ip)`, once the primary and secondary fetches settled. */
  function Completed(s: State, ip: string, p: Geo.Fetch<Geo.IpapiBody>, sec: Geo.Fetch<Geo.IpApiBody>): State {
    var res := Geo.HoverResolve(p, sec).result;
    Updated(s.(cache := Geo.Store(s.cache, ip, res)), ip, res)
  }

  /** `showTooltip(ip, x, y)`. */
  function Shown(s: State, ip: string, x: real, y: real, vw: real, vh: real): State {
    Begun(Positioned(s.(tooltipFixed := false), x, y, vw, vh).(visible := true, view := Loading(ip)), ip)
  }

  /** `handleMouseOver` on an element whose text content is `text`. */
  function Hovered(s: State, text: string, x: real, y: real, vw: real, vh: real): State {
    var m := IpPattern.FirstMatch(text);
    if m.Some? && m != s.currentIP then Shown(s.(currentIP := m), m.value, x, y, vw, vh) else s
  }

  /** `handleMouseOut`. */
  function MousedOut(s: State): State {
    s.(visible := false, currentIP := None)
  }

  /** `handleMouseMove`. */
  function Moved(s: State, x: real, y: real, vw: real, vh: real): State {
    if s.currentIP.Some? && !s.tooltipFixed then Positioned(s, x, y, vw, vh) else s
  }

  /** The message listener. The hide that `test` schedules for three seconds later is a separate `HideTooltip` step. */
  function Dispatch(s: State, action: string, vw: real, vh: real): Protocol.Handled<State> {
    if action == Protocol.GetStats then
      Protocol.Handled(s, Some(Protocol.Reply(Some(true), Some(|s.cache|), Some(s.queryCount), None)))
    else if action == Protocol.ClearCache then
      Protocol.Handled(s.(cache := map[], queryCount := 0), Some(Protocol.Ack(true)))
    else if action == Protocol.Test then
      Protocol.Handled(Shown(s, TestIP, 100.0, 100.0, vw, vh), Some(Protocol.Ack(true)))
    else
      Protocol.Handled(s, Some(Protocol.Ack(false)))
  }

  // ---------------------------------------------------------------------------
  // Properties of the transitions
  // ---------------------------------------------------------------------------

  /**
   * Hovering acts on the first match only: no match, or the current IP again,
   * changes nothing; a new IP becomes current, is placed, shown and looked up.
   */
  lemma HoverOutcome(s: State, text: string, x: real, y: real, vw: real, vh: real)
    ensures var m := IpPattern.FirstMatch(text);
            var r := Hovered(s, text, x, y, vw, vh);
            ((m.None? || m == s.currentIP) ==> r == s) &&
            (m.Some? && m != s.currentIP ==>
               r.currentIP == m && r.visible && r.cache == s.cache &&
               r.left == Placement.LeftEdge(x, vw, Placement.HoverBox) &&
               r.top == Placement.TopEdge(y, vh, Placement.HoverBox) &&
               (m.value in s.cache ==>
                  r.queryCount == s.queryCount && r.tooltipFixed &&
                  r.view == Render(m.value, Geo.Located(s.cache[m.value]))) &&
               (m.value !in s.cache ==>
                  r.queryCount == s.queryCount + 1 && !r.tooltipFixed && r.view == Loading(m.value)))
  {
  }

  /** Two texts with the same first match have the same effect. */
  lemma HoverDependsOnFirstMatch(s: State, t1: string, t2: string, x: real, y: real, vw: real, vh: real)
    requires IpPattern.FirstMatch(t1) == IpPattern.FirstMatch(t2)
    ensures Hovered(s, t1, x, y, vw, vh) == Hovered(s, t2, x, y, vw, vh)
  {
  }

  /** Mouse-out hides, forgets the current IP, and keeps cache and counter. */
  lemma MouseOutForgets(s: State)
    ensures var r := MousedOut(s);
            !r.visible && r.currentIP.None? && r.cache == s.cache && r.queryCount == s.queryCount
  {
  }

  /** The tooltip follows the mouse only while an IP is current and no result is rendered yet. */
  lemma MoveWhileLoading(s: State, x: real, y: real, vw: real, vh: real)
    ensures s.currentIP.Some? && !s.tooltipFixed ==>
              Moved(s, x, y, vw, vh) == s.(left := Placement.LeftEdge(x, vw, Placement.HoverBox),
                                           top := Placement.TopEdge(y, vh, Placement.HoverBox))
    ensures s.currentIP.None? || s.tooltipFixed ==> Moved(s, x, y, vw, vh) == s
  {
  }

  /** Showing counts a query exactly when the cache misses, and never touches the cache. */
  lemma ShowCountsMisses(s: State, ip: string, x: real, y: real, vw: real, vh: real)
    ensures var r := Shown(s, ip, x, y, vw, vh);
            r.cache == s.cache && r.queryCount == s.queryCount + (if ip in s.cache then 0 else 1)
  {
  }

  /** A result for an IP that is no longer current only fills the cache. */
  lemma StaleResultDropped(s: State, ip: string, p: Geo.Fetch<Geo.IpapiBody>, sec: Geo.Fetch<Geo.IpApiBody>)
    requires s.currentIP != Some(ip)
    ensures Completed(s, ip, p, sec) == s.(cache := Geo.Store(s.cache, ip, Geo.HoverResolve(p, sec).result))
  {
  }

  /** A result for the current IP is rendered and fixes the tooltip; the counter is untouched. */
  lemma CurrentResultRendered(s: State, ip: string, p: Geo.Fetch<Geo.IpapiBody>, sec: Geo.Fetch<Geo.IpApiBody>)
    requires s.currentIP == Some(ip)
    ensures var r := Completed(s, ip, p, sec);
            r.tooltipFixed && r.view == Render(ip, Geo.HoverResolve(p, sec).result) &&
            r.queryCount == s.queryCount && r.currentIP == s.currentIP
  {
  }

  /**
   * After a successful lookup, leaving and hovering the same text again
   * renders the cached record at once and issues no new query.
   */
  lemma WarmCache(s: State, text: string, ip: string, p: Geo.Fetch<Geo.IpapiBody>, sec: Geo.Fetch<Geo.IpApiBody>,
                  x: real, y: real, vw: real, vh: real)
    requires IpPattern.FirstMatch(text) == Some(ip)
    requires Geo.HoverResolve(p, sec).result.Located?
    ensures var c := Completed(s, ip, p, sec);
            var r := Hovered(MousedOut(c), text, x, y, vw, vh);
            r.queryCount == c.queryCount == s.queryCount && r.tooltipFixed && r.visible &&
            r.view == Render(ip, Geo.HoverResolve(p, sec).result)
  {
    var c := Completed(s, ip, p, sec);
    assert ip in c.cache && c.cache[ip] == Geo.HoverResolve(p, sec).result.info;
  }

  /** `getStats` reports the cache size and the counter. */
  lemma StatsReport(s: State, vw: real, vh: real)
    ensures Dispatch(s, Protocol.GetStats, vw, vh) ==
            Protocol.Handled(s, Some(Protocol.Reply(Some(true), Some(|s.cache|), Some(s.queryCount), None)))
  {
  }

  /** `clearCache` empties the cache and resets the counter, so the next `getStats` reports zeros. */
  lemma ClearResets(s: State, vw: real, vh: real)
    ensures var h := Dispatch(s, Protocol.ClearCache, vw, vh);
            h.state.cache == map[] && h.state.queryCount == 0 && h.reply == Some(Protocol.Ack(true)) &&
            Dispatch(h.state, Protocol.GetStats, vw, vh).reply ==
              Some(Protocol.Reply(Some(true), Some(0), Some(0), None))
  {
  }

  /** An unknown action changes nothing and is answered `{ success: false }`. */
  lemma UnknownRefused(s: State, action: string, vw: real, vh: real)
    requires action != Protocol.GetStats && action != Protocol.ClearCache && action != Protocol.Test
    ensures Dispatch(s, action, vw, vh) == Protocol.Handled(s, Some(Protocol.Ack(false)))
  {
  }

  /**
   * `test` shows 8.8.8.8 without making it current, so unless it already
   * was, its lookup result is never rendered: the tooltip stays loading.
   */
  lemma TestResultNeverRendered(s: State, vw: real, vh: real, p: Geo.Fetch<Geo.IpapiBody>, sec: Geo.Fetch<Geo.IpApiBody>)
    requires s.currentIP != Some(TestIP)
    ensures var t := Dispatch(s, Protocol.Test, vw, vh).state;
            var r := Completed(t, TestIP, p, sec);
            r.visible && r.view == Loading(TestIP) && !r.tooltipFixed
  {
  }

  // ---------------------------------------------------------------------------
  // The object
  // ---------------------------------------------------------------------------

  class Locator {
    var cache: map<string, Geo.LocationInfo>
    var queryCount: nat
    var currentIP: Option<string>
    var tooltipFixed: bool
    var visible: bool
    var view: View
    var left: real
    var top: real

    ghost function Snapshot(): State
      reads this
    {
      State(cache, queryCount, currentIP, tooltipFixed, visible, view, left, top)
    }

    constructor()
      ensures Snapshot() == Init()
    {
      cache := map[];
      queryCount := 0;
      currentIP := None;
      tooltipFixed := false;
      visible := false;
      view := Blank;
      left := 0.0;
      top := 0.0;
    }

    method UpdateTooltipPosition(x: real, y: real, vw: real, vh: real)
      modifies this
      ensures Snapshot() == Positioned(old(Snapshot()), x, y, vw, vh)
    {
      left := Placement.LeftEdge(x, vw, Placement.HoverBox);
      top := Placement.TopEdge(y, vh, Placement.HoverBox);
    }

    method HideTooltip()
      modifies this
      ensures Snapshot() == old(Snapshot()).(visible := false)
    {
      visible := false;
    }

    method UpdateTooltip(ip: string, res: Geo.Resolution<Geo.LocationInfo>)
      modifies this
      ensures Snapshot() == Updated(old(Snapshot()), ip, res)
    {
      if currentIP != Some(ip) {
        return;
      }
      tooltipFixed := true;
      view := Render(ip, res);
    }

    /** Returns whether the lookup goes to the network. */
    method BeginLookup(ip: string) returns (pending: bool)
      modifies this
      ensures pending <==> ip !in old(cache)
      ensures Snapshot() == Begun(old(Snapshot()), ip)
    {
      if ip in cache {
        UpdateTooltip(ip, Geo.Located(cache[ip]));
        return false;
      }
      queryCount := queryCount + 1;
      pending := true;
    }

    /** Returns the number of requests the lookup issued. */
    method CompleteLookup(ip: string, p: Geo.Fetch<Geo.IpapiBody>, sec: Geo.Fetch<Geo.IpApiBody>) returns (requests: nat)
      modifies this
      ensures requests == Geo.HoverResolve(p, sec).requests
      ensures Snapshot() == Completed(old(Snapshot()), ip, p, sec)
    {
      var lookup := Geo.HoverResolve(p, sec);
      requests := lookup.requests;
      if lookup.result.Located? {
        cache := cache[ip := lookup.result.info];
      }
      UpdateTooltip(ip, lookup.result);
    }

    method ShowTooltip(ip: string, x: real, y: real, vw: real, vh: real) returns (pending: bool)
      modifies this
      ensures pending <==> ip !in old(cache)
      ensures Snapshot() == Shown(old(Snapshot()), ip, x, y, vw, vh)
    {
      tooltipFixed := false;
      UpdateTooltipPosition(x, y, vw, vh);
      visible := true;
      view := Loading(ip);
      pending := BeginLookup(ip);
    }

    /** Returns whether a lookup went to the network. */
    method MouseOver(text: string, x: real, y: real, vw: real, vh: real) returns (pending: bool)
      modifies this
      ensures pending ==> IpPattern.FirstMatch(text).Some? && IpPattern.FirstMatch(text).value !in old(cache)
      ensures Snapshot() == Hovered(old(Snapshot()), text, x, y, vw, vh)
    {
      var m := IpPattern.FirstMatch(text);
      pending := false;
      if m.Some? && m != currentIP {
        currentIP := m;
        pending := ShowTooltip(m.value, x, y, vw, vh);
      }
    }

    method MouseOut()
      modifies this
      ensures Snapshot() == MousedOut(old(Snapshot()))
    {
      HideTooltip();
      currentIP := None;
    }

    method MouseMove(x: real, y: real, vw: real, vh: real)
      modifies this
      ensures Snapshot() == Moved(old(Snapshot()), x, y, vw, vh)
    {
      if currentIP.Some? && !tooltipFixed {
        UpdateTooltipPosition(x, y, vw, vh);
      }
    }

    /** `handleDoubleClick`: the text handed to the clipboard, if any; no field changes. */
    method DoubleClick(text: string) returns (copied: Option<string>)
      ensures copied.None? <==> IpPattern.Matches(text) == []
      ensures copied.Some? ==> copied.value == IpPattern.Matches(text)[0]
    {
      copied := IpPattern.FirstMatch(text);
      IpPattern.FirstMatchIsFirst(text);
    }

    method HandleMessage(action: string, vw: real, vh: real) returns (reply: Option<Protocol.Reply>)
      modifies this
      ensures Protocol.Handled(Snapshot(), reply) == Dispatch(old(Snapshot()), action, vw, vh)
    {
      if action == Protocol.GetStats {
        reply := Some(Protocol.Reply(Some(true), Some(|cache|), Some(queryCount), None));
      } else if action == Protocol.ClearCache {
        cache := map[];
        queryCount := 0;
        reply := Some(Protocol.Ack(true));
      } else if action == Protocol.Test {
        var _ := ShowTooltip(TestIP, 100.0, 100.0, vw, vh);
        reply := Some(Protocol.Ack(true));
      } else {
        reply := Some(Protocol.Ack(false));
      }
    }
  }
}

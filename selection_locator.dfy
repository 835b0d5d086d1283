/**
 * The selection variant (content.js). Selecting text that holds an
 * IPv4-shaped string shows a tooltip for its first match; an empty selection,
 * a selection without a match, or a click outside the tooltip hides it and
 * forgets the current IP. There is no staleness guard: a lookup result is
 * rendered whichever IP is current when it arrives. The cache holds the
 * response objects whole, and the copy button composes a line from them.
 *
 * As in the hover variant, `getLocationInfo` is cut at its first `await` into
 * `Begun` and `Completed`, the transitions are functions on `State`, and the
 * class `Locator` is proved to make them.
 */
module SelectionLocator {
  import opened Wrappers
  import opened Text
  import IpPattern
  import Flag
  import Placement
  import Geo
  import Protocol

  /** What the tooltip shows. */
  datatype View =
    | Blank
    | Loading(ip: string)
    | ShowError(ip: string, message: string)
    | ShowLocation(ip: string, flag: string, place: string, isp: Field)

  datatype State = State(
    cache: map<string, Geo.IpApiBody>,
    queryCount: nat,
    currentIP: Option<string>,
    visible: bool,
    view: View,
    left: real,
    top: real)

  const TestIP: string := "8.8.8.8"

  /** `updateTooltip(ip, res)`: an error is shown after "query failed: ". */
  function Render(ip: string, res: Geo.Resolution<Geo.IpApiBody>): View {
    match res
    case Failed(m) => ShowError(ip, Geo.QueryFailed + ": " + m)
    case Located(d) =>
      ShowLocation(ip, Flag.CountryFlag(d.countryCode, Flag.MeridianGlobe),
                   LocationText(d.city, d.regionName, d.country), IfTruthy(d.isp))
  }

  /**
   * The text the copy button copies for ip: the IP alone unless a record is
   * cached, otherwise the IP, " - ", the flag, a space, the location line and,
   * when the ISP is truthy, the ISP in parentheses.
   */
  function CopyText(cache: map<string, Geo.IpApiBody>, ip: string): (t: string)
    ensures |t| >= |ip| && t[..|ip|] == ip
    ensures t == ip <==> ip !in cache
    ensures ip in cache ==>
              var d := cache[ip];
              var flag := Flag.CountryFlag(d.countryCode, Flag.MeridianGlobe);
              var place := LocationText(d.city, d.regionName, d.country);
              var n := |ip| + 3 + |flag| + 1;
              n + |place| <= |t| &&
              t[|ip|..|ip| + 3] == " - " && t[|ip| + 3..n - 1] == flag && t[n - 1] == ' ' &&
              t[n..n + |place|] == place &&
              (Truthy(d.isp) ==> t[n + |place|..] == " (" + d.isp.value + ")") &&
              (!Truthy(d.isp) ==> |t| == n + |place|)
  {
    if ip !in cache then ip
    else
      var d := cache[ip];
      var flag := Flag.CountryFlag(d.countryCode, Flag.MeridianGlobe);
      var place := LocationText(d.city, d.regionName, d.country);
      var tail := if Truthy(d.isp) then " (" + d.isp.value + ")" else "";
      CopyPieces(ip, flag, place, tail);
      ip + " - " + flag + " " + place + tail
  }

  /** Where the pieces of the copied text sit. */
  lemma CopyPieces(ip: string, flag: string, place: string, tail: string)
    ensures var t := ip + " - " + flag + " " + place + tail;
            var n := |ip| + 3 + |flag| + 1;
            |t| == n + |place| + |tail| &&
            t[..|ip|] == ip && t[|ip|..|ip| + 3] == " - " && t[|ip| + 3..n - 1] == flag && t[n - 1] == ' ' &&
            t[n..n + |place|] == place && t[n + |place|..] == tail
  {
  }

  // ---------------------------------------------------------------------------
  // Transitions
  // ---------------------------------------------------------------------------

  function Init(): State {
    State(map[], 0, None, false, Blank, 0.0, 0.0)
  }

  /** `updateTooltipPosition(e.clientX, e.clientY)` with the 350 x 120 size. */
  function Positioned(s: State, at: Placement.EventPoint, vw: real, vh: real): State {
    s.(left := Placement.EventLeft(at, vw, Placement.SelectionBox), top := Placement.EventTop(at, vh, Placement.SelectionBox))
  }

  /** `hideTooltip`. */
  function Hidden(s: State): State {
    s.(visible := false, currentIP := None)
  }

  /** `updateTooltip(ip, res)`: renders whatever IP is current. */
  function Updated(s: State, ip: string, res: Geo.Resolution<Geo.IpApiBody>): State {
    s.(view := Render(ip, res))
  }

  /** `getLocationInfo(ip)` up to its first `await`. */
  function Begun(s: State, ip: string): State {
    if ip in s.cache then Updated(s, ip, Geo.Located(s.cache[ip]))
    else s.(queryCount := s.queryCount + 1)
  }

  /** The rest of `getLocationInfo(ip)`, once the fetches settled. */
  function Completed(s: State, ip: string, p: Geo.Fetch<Geo.IpapiBody>, sec: Geo.Fetch<Geo.IpApiBody>): State {
    var res := Geo.SelectionResolve(p, sec).result;
    Updated(s.(cache := Geo.Store(s.cache, ip, res)), ip, res)
  }

  /** `showTooltip(ip, x, y)`. */
  function Shown(s: State, ip: string, at: Placement.EventPoint, vw: real, vh: real): State {
    Begun(Positioned(s, at, vw, vh).(visible := true, view := Loading(ip)), ip)
  }

  /**
   * `handleTextSelection` for the selected text `selection`, triggered by an
   * event at `at`: `mouseup` has coordinates, `keyup` and `selectionchange`
   * have none.
   */
  function Selected(s: State, selection: string, at: Placement.EventPoint, vw: real, vh: real): State {
    var t := Trim(selection);
    if t == "" then Hidden(s)
    else
      var m := IpPattern.FirstMatch(t);
      if m.None? then Hidden(s)
      else if m != s.currentIP then Shown(s.(currentIP := m), m.value, at, vw, vh)
      else s
  }

  /** The document click handler; `inside` says whether the target is within the tooltip. */
  function Clicked(s: State, inside: bool): State {
    if inside then s else Hidden(s)
  }

  /** The message listener; an unknown action gets no reply. */
  function Dispatch(s: State, action: string, vw: real, vh: real): Protocol.Handled<State> {
    if action == Protocol.GetStats then
      Protocol.Handled(s, Some(Protocol.Reply(None, Some(|s.cache|), Some(s.queryCount), None)))
    else if action == Protocol.ClearCache then
      Protocol.Handled(s.(cache := map[]), Some(Protocol.Ack(true)))
    else if action == Protocol.Test then
      Protocol.Handled(Shown(s, TestIP, Placement.At(100.0, 100.0), vw, vh), Some(Protocol.Ack(true)))
    else
      Protocol.Handled(s, None)
  }

  // ---------------------------------------------------------------------------
  // Properties of the transitions
  // ---------------------------------------------------------------------------

  /** A selection of white space only hides the tooltip and forgets the current IP. */
  lemma BlankSelectionHides(s: State, selection: string, at: Placement.EventPoint, vw: real, vh: real)
    requires forall i :: 0 <= i < |selection| ==> IsJsSpace(selection[i])
    ensures Selected(s, selection, at, vw, vh) == Hidden(s)
  {
    TrimEmpty(selection);
  }

  /**
   * Selection acts on the first match of the trimmed text: none hides, the
   * current IP again changes nothing, a new IP becomes current and is shown.
   */
  lemma SelectionOutcome(s: State, selection: string, at: Placement.EventPoint, vw: real, vh: real)
    ensures var m := IpPattern.FirstMatch(Trim(selection));
            var r := Selected(s, selection, at, vw, vh);
            (m.None? ==> r == Hidden(s)) &&
            (m.Some? && m == s.currentIP ==> r == s) &&
            (m.Some? && m != s.currentIP ==>
               r.currentIP == m && r.visible && r.cache == s.cache &&
               r.left == Placement.EventLeft(at, vw, Placement.SelectionBox) &&
               r.top == Placement.EventTop(at, vh, Placement.SelectionBox) &&
               r.queryCount == s.queryCount + (if m.value in s.cache then 0 else 1) &&
               r.view == (if m.value in s.cache then Render(m.value, Geo.Located(s.cache[m.value])) else Loading(m.value)))
  {
    if Trim(selection) == "" {
      assert IpPattern.NoMatchIn("", 0, 0);
    }
  }

  /**
   * A selection made by keyboard or reported by `selectionchange` has no
   * coordinates: a new IP is shown centred in the viewport.
   */
  lemma UndefinedSelectionCentred(s: State, selection: string, vw: real, vh: real)
    requires IpPattern.FirstMatch(Trim(selection)).Some? && IpPattern.FirstMatch(Trim(selection)) != s.currentIP
    ensures var r := Selected(s, selection, Placement.Undefined, vw, vh);
            r.visible &&
            r.left == Placement.Max(20.0, (vw - 350.0) / 2.0) && r.top == Placement.Max(20.0, (vh - 120.0) / 2.0)
  {
    SelectionOutcome(s, selection, Placement.Undefined, vw, vh);
  }

  /**
   * A `selectionchange` followed by a `mouseup` with no click between them:
   * the `mouseup` finds the IP current and leaves the tooltip where the
   * coordinate-less event put it.
   */
  lemma DragStaysCentred(s: State, selection: string, x: real, y: real, vw: real, vh: real)
    requires IpPattern.FirstMatch(Trim(selection)).Some? && IpPattern.FirstMatch(Trim(selection)) != s.currentIP
    ensures var first := Selected(s, selection, Placement.Undefined, vw, vh);
            var r := Selected(first, selection, Placement.At(x, y), vw, vh);
            r == first && r.left == Placement.Max(20.0, (vw - 350.0) / 2.0)
  {
    var first := Selected(s, selection, Placement.Undefined, vw, vh);
    SelectionOutcome(s, selection, Placement.Undefined, vw, vh);
    SelectionOutcome(first, selection, Placement.At(x, y), vw, vh);
  }

  /**
   * A drag that ends in a `click` outside the tooltip: the click handler runs
   * before the delayed `mouseup` handler and hides the tooltip, so the
   * `mouseup` shows the IP again, placed by the mouse rule, and counts
   * another query when the cache still misses.
   */
  lemma DragClickReplaces(s: State, selection: string, x: real, y: real, vw: real, vh: real)
    requires IpPattern.FirstMatch(Trim(selection)).Some? && IpPattern.FirstMatch(Trim(selection)) != s.currentIP
    ensures var m := IpPattern.FirstMatch(Trim(selection));
            var first := Selected(s, selection, Placement.Undefined, vw, vh);
            var r := Selected(Clicked(first, false), selection, Placement.At(x, y), vw, vh);
            r.visible && r.currentIP == m && r.cache == s.cache &&
            r.left == Placement.LeftEdge(x, vw, Placement.SelectionBox) &&
            r.top == Placement.TopEdge(y, vh, Placement.SelectionBox) &&
            r.queryCount == s.queryCount + (if m.value in s.cache then 0 else 2)
  {
    var first := Selected(s, selection, Placement.Undefined, vw, vh);
    SelectionOutcome(s, selection, Placement.Undefined, vw, vh);
    SelectionOutcome(Clicked(first, false), selection, Placement.At(x, y), vw, vh);
  }

  /** Hiding forgets the current IP, so selecting the same IP again shows it again. */
  lemma ReselectAfterHide(s: State, selection: string, at: Placement.EventPoint, vw: real, vh: real)
    requires IpPattern.FirstMatch(Trim(selection)).Some?
    ensures var r := Selected(Hidden(s), selection, at, vw, vh);
            r.visible && r.currentIP == IpPattern.FirstMatch(Trim(selection))
  {
    SelectionOutcome(Hidden(s), selection, at, vw, vh);
  }

  /** A click outside the tooltip hides it; a click inside changes nothing. */
  lemma ClickOutsideHides(s: State, inside: bool)
    ensures !inside ==> !Clicked(s, inside).visible && Clicked(s, inside).currentIP.None?
    ensures inside ==> Clicked(s, inside) == s
  {
  }

  /** Showing counts a query exactly when the cache misses. */
  lemma ShowCountsMisses(s: State, ip: string, at: Placement.EventPoint, vw: real, vh: real)
    ensures var r := Shown(s, ip, at, vw, vh);
            r.cache == s.cache && r.queryCount == s.queryCount + (if ip in s.cache then 0 else 1)
  {
  }

  /** Without a staleness guard, a result is rendered even when another IP is current. */
  lemma ResultAlwaysRendered(s: State, ip: string, p: Geo.Fetch<Geo.IpapiBody>, sec: Geo.Fetch<Geo.IpApiBody>)
    ensures var r := Completed(s, ip, p, sec);
            r.view == Render(ip, Geo.SelectionResolve(p, sec).result) &&
            r.currentIP == s.currentIP && r.queryCount == s.queryCount
  {
  }

  /** A successful lookup caches the response object; copying then gives the full line. */
  lemma CopyAfterSuccess(s: State, ip: string, p: Geo.Fetch<Geo.IpapiBody>, sec: Geo.Fetch<Geo.IpApiBody>)
    requires Geo.SelectionResolve(p, sec).result.Located?
    ensures var r := Completed(s, ip, p, sec);
            ip in r.cache && r.cache[ip] == Geo.SelectionResolve(p, sec).result.info && CopyText(r.cache, ip) != ip
  {
  }

  /** A failed lookup leaves the cache, so copying still gives the bare IP if nothing was cached. */
  lemma CopyAfterFailure(s: State, ip: string, p: Geo.Fetch<Geo.IpapiBody>, sec: Geo.Fetch<Geo.IpApiBody>)
    requires Geo.SelectionResolve(p, sec).result.Failed? && ip !in s.cache
    ensures var r := Completed(s, ip, p, sec);
            r.cache == s.cache && CopyText(r.cache, ip) == ip
  {
  }

  /** `getStats` has no success field. */
  lemma StatsReport(s: State, vw: real, vh: real)
    ensures Dispatch(s, Protocol.GetStats, vw, vh) ==
            Protocol.Handled(s, Some(Protocol.Reply(None, Some(|s.cache|), Some(s.queryCount), None)))
  {
  }

  /** `clearCache` empties the cache and keeps the counter. */
  lemma ClearKeepsCount(s: State, vw: real, vh: real)
    ensures Dispatch(s, Protocol.ClearCache, vw, vh) == Protocol.Handled(s.(cache := map[]), Some(Protocol.Ack(true)))
    ensures Dispatch(Dispatch(s, Protocol.ClearCache, vw, vh).state, Protocol.GetStats, vw, vh).reply ==
            Some(Protocol.Reply(None, Some(0), Some(s.queryCount), None))
  {
  }

  /** An unknown action changes nothing and gets no reply. */
  lemma UnknownUnanswered(s: State, action: string, vw: real, vh: real)
    requires action != Protocol.GetStats && action != Protocol.ClearCache && action != Protocol.Test
    ensures Dispatch(s, action, vw, vh) == Protocol.Handled(s, None)
  {
  }

  // ---------------------------------------------------------------------------
  // The object
  // ---------------------------------------------------------------------------

  class Locator {
    var cache: map<string, Geo.IpApiBody>
    var queryCount: nat
    var currentIP: Option<string>
    var visible: bool
    var view: View
    var left: real
    var top: real

    ghost function Snapshot(): State
      reads this
    {
      State(cache, queryCount, currentIP, visible, view, left, top)
    }

    constructor()
      ensures Snapshot() == Init()
    {
      cache := map[];
      queryCount := 0;
      currentIP := None;
      visible := false;
      view := Blank;
      left := 0.0;
      top := 0.0;
    }

    method UpdateTooltipPosition(at: Placement.EventPoint, vw: real, vh: real)
      modifies this
      ensures Snapshot() == Positioned(old(Snapshot()), at, vw, vh)
    {
      left := Placement.EventLeft(at, vw, Placement.SelectionBox);
      top := Placement.EventTop(at, vh, Placement.SelectionBox);
    }

    method HideTooltip()
      modifies this
      ensures Snapshot() == Hidden(old(Snapshot()))
    {
      visible := false;
      currentIP := None;
    }

    method UpdateTooltip(ip: string, res: Geo.Resolution<Geo.IpApiBody>)
      modifies this
      ensures Snapshot() == Updated(old(Snapshot()), ip, res)
    {
      view := Render(ip, res);
    }

    /** Returns whether the lookup goes to the network. */
    method BeginLookup(ip: string) returns (pending: bool)
      modifies this
      ensures pending <==> ip !in old(cache)
      ensures Snapshot() == Begun(old(Snapshot()), ip)
    {
      if ip in cache {
        UpdateTooltip(ip, Geo.Located(cache[ip]));
        return false;
      }
      queryCount := queryCount + 1;
      pending := true;
    }

    /** Returns the number of requests the lookup issued. */
    method CompleteLookup(ip: string, p: Geo.Fetch<Geo.IpapiBody>, sec: Geo.Fetch<Geo.IpApiBody>) returns (requests: nat)
      modifies this
      ensures requests == Geo.SelectionResolve(p, sec).requests
      ensures Snapshot() == Completed(old(Snapshot()), ip, p, sec)
    {
      var lookup := Geo.SelectionResolve(p, sec);
      requests := lookup.requests;
      if lookup.result.Located? {
        cache := cache[ip := lookup.result.info];
      }
      UpdateTooltip(ip, lookup.result);
    }

    method ShowTooltip(ip: string, at: Placement.EventPoint, vw: real, vh: real) returns (pending: bool)
      modifies this
      ensures pending <==> ip !in old(cache)
      ensures Snapshot() == Shown(old(Snapshot()), ip, at, vw, vh)
    {
      UpdateTooltipPosition(at, vw, vh);
      visible := true;
      view := Loading(ip);
      pending := BeginLookup(ip);
    }

    /** Returns whether a lookup went to the network. */
    method HandleTextSelection(selection: string, at: Placement.EventPoint, vw: real, vh: real) returns (pending: bool)
      modifies this
      ensures Snapshot() == Selected(old(Snapshot()), selection, at, vw, vh)
    {
      pending := false;
      var selected := Trim(selection);
      if selected == "" {
        HideTooltip();
        return;
      }
      var m := IpPattern.FirstMatch(selected);
      if m.Some? {
        if m != currentIP {
          currentIP := m;
          pending := ShowTooltip(m.value, at, vw, vh);
        }
      } else {
        HideTooltip();
      }
    }

    method Click(inside: bool)
      modifies this
      ensures Snapshot() == Clicked(old(Snapshot()), inside)
    {
      if !inside {
        HideTooltip();
      }
    }

    /** The copy button: the text it hands to the clipboard. */
    method CopyToClipboard(ip: string) returns (text: string)
      ensures text == CopyText(cache, ip)
    {
      text := CopyText(cache, ip);
    }

    method HandleMessage(action: string, vw: real, vh: real) returns (reply: Option<Protocol.Reply>)
      modifies this
      ensures Protocol.Handled(Snapshot(), reply) == Dispatch(old(Snapshot()), action, vw, vh)
    {
      if action == Protocol.GetStats {
        reply := Some(Protocol.Reply(None, Some(|cache|), Some(queryCount), None));
      } else if action == Protocol.ClearCache {
        cache := map[];
        reply := Some(Protocol.Ack(true));
      } else if action == Protocol.Test {
        var _ := ShowTooltip(TestIP, Placement.At(100.0, 100.0), vw, vh);
        reply := Some(Protocol.Ack(true));
      } else {
        reply := None;
      }
    }
  }
}

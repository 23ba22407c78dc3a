/**
 * The live-update subscription of the frontend
 * (frontend/src/hooks/useAwsWebSocketFlags.js): one WebSocket per mount,
 * a refresh callback for the recognised event tags, error reports only once
 * the socket has opened, and a close on unmount while it is still live.
 */
module Subscriber {
  import opened Wrappers
  import opened Text
  import opened Json
  import opened Store

  /** `WebSocket.readyState`. */
  datatype ReadyState = Connecting | Open | Closing | Closed

  /** The configured URL is set, non-empty and not a placeholder containing "<". */
  predicate Usable(url: Option<string>) {
    url.Some? && url.value != "" && !Contains(url.value, "<")
  }

  /** The tags that make the hook call `onEvent`. */
  const Recognised: set<string> := {"flag-created", "flag-updated", "flag-deleted"}

  /**
   * A parsed message asks for a refresh: its `event` property is one of the
   * recognised strings. Non-object messages have no such property; a message
   * that does not parse (or is `null`) throws and is only logged.
   */
  predicate Refreshes(m: Body) {
    m.Fields? && "event" in m.fields && m.fields["event"].JStr? && m.fields["event"].s in Recognised
  }

  /** The JSON the backend pushes for `e`, as far as the hook reads it. */
  function Wire(e: Event): (m: Body)
    ensures m.Fields? && "event" in m.fields && m.fields["event"] == JStr(Tag(e))
  {
    Fields(map["event" := JStr(Tag(e))])
  }

  /**
   * Only the single-flag events trigger a refresh: the bulk handlers' tags
   * "flags-updated" and "flags-deleted" are not among the recognised ones.
   */
  lemma TagGap(e: Event)
    ensures Refreshes(Wire(e)) <==> e.FlagCreated? || e.FlagUpdated? || e.FlagDeleted?
  {
    assert "flags-updated" !in Recognised;
    assert "flags-deleted" !in Recognised;
  }

  /** How many of the messages ask for a refresh. */
  function RefreshCount(ms: seq<Body>): (n: nat)
    ensures n <= |ms|
  {
    if ms == [] then 0
    else RefreshCount(ms[..|ms| - 1]) + (if Refreshes(ms[|ms| - 1]) then 1 else 0)
  }

  /** One mount of the hook and the socket it opened, if any. */
  class Subscription {
    /** A socket was created. */
    const connected: bool
    var state: ReadyState
    var didOpen: bool
    /** Calls of `onEvent`. */
    var refreshes: nat
    /** Errors reported with `console.error` from `onerror`. */
    var errorsReported: nat
    /** Messages that failed to parse and were logged. */
    var parseErrors: nat
    /** Calls of `ws.close()` made by the cleanup. */
    var closeCalls: nat

    predicate Valid()
      reads this
    {
      (state == Connecting ==> !didOpen) && (!connected ==> state == Closed && !didOpen)
    }

    /** The effect: a socket is created exactly when the URL is usable. */
    constructor(url: Option<string>)
      ensures connected == Usable(url)
      ensures state == (if connected then Connecting else Closed)
      ensures !didOpen && refreshes == 0 && errorsReported == 0 && parseErrors == 0 && closeCalls == 0
      ensures Valid()
    {
      connected := Usable(url);
      state := if Usable(url) then Connecting else Closed;
      didOpen := false;
      refreshes := 0;
      errorsReported := 0;
      parseErrors := 0;
      closeCalls := 0;
    }

    /** `onopen`, after the browser moved the socket to OPEN. */
    method OnOpen()
      requires connected && state == Connecting
      modifies this
      ensures state == Open && didOpen
      ensures refreshes == old(refreshes) && errorsReported == old(errorsReported)
      ensures parseErrors == old(parseErrors) && closeCalls == old(closeCalls)
      ensures Valid()
    {
      state := Open;
      didOpen := true;
    }

    /** `onmessage`: one refresh per recognised message; a parse failure is logged and the socket stays. */
    method OnMessage(m: Body)
      requires connected && Valid()
      modifies this
      ensures refreshes == old(refreshes) + (if Refreshes(m) then 1 else 0)
      ensures parseErrors == old(parseErrors) + (if m.Malformed? then 1 else 0)
      ensures state == old(state) && didOpen == old(didOpen)
      ensures errorsReported == old(errorsReported) && closeCalls == old(closeCalls)
      ensures Valid()
    {
      if m.Malformed? {
        parseErrors := parseErrors + 1;
      } else if Refreshes(m) {
        refreshes := refreshes + 1;
      }
    }

    /** `onerror`: reported only once the socket has opened. */
    method OnError()
      requires connected && Valid()
      modifies this
      ensures errorsReported == old(errorsReported) + (if didOpen then 1 else 0)
      ensures state == old(state) && didOpen == old(didOpen) && refreshes == old(refreshes)
      ensures parseErrors == old(parseErrors) && closeCalls == old(closeCalls)
      ensures Valid()
    {
      if didOpen {
        errorsReported := errorsReported + 1;
      }
    }

    /** `onclose`: the socket is closed and only logged; nothing reconnects. */
    method OnClose()
      requires connected && Valid()
      modifies this
      ensures state == Closed
      ensures didOpen == old(didOpen) && refreshes == old(refreshes) && errorsReported == old(errorsReported)
      ensures parseErrors == old(parseErrors) && closeCalls == old(closeCalls)
      ensures Valid()
    {
      state := Closed;
    }

    /** The cleanup on unmount: `close()` while CONNECTING or OPEN, nothing otherwise. */
    method Cleanup()
      requires Valid()
      modifies this
      ensures var live := connected && old(state) in {Connecting, Open};
        closeCalls == old(closeCalls) + (if live then 1 else 0)
        && state == (if live then Closing else old(state))
      ensures didOpen == old(didOpen) && refreshes == old(refreshes)
      ensures errorsReported == old(errorsReported) && parseErrors == old(parseErrors)
      ensures Valid()
    {
      if connected && (state == Connecting || state == Open) {
        closeCalls := closeCalls + 1;
        state := Closing;
      }
    }

    /** A stream of messages calls `onEvent` once per recognised one. */
    method Deliver(ms: seq<Body>)
      requires connected && Valid()
      modifies this
      ensures refreshes == old(refreshes) + RefreshCount(ms)
      ensures state == old(state) && didOpen == old(didOpen)
      ensures errorsReported == old(errorsReported) && closeCalls == old(closeCalls)
      ensures Valid()
    {
      var i := 0;
      while i < |ms|
        invariant 0 <= i <= |ms|
        invariant refreshes == old(refreshes) + RefreshCount(ms[..i])
        invariant state == old(state) && didOpen == old(didOpen)
        invariant errorsReported == old(errorsReported) && closeCalls == old(closeCalls)
        invariant Valid()
      {
        assert ms[..i + 1][..i] == ms[..i];
        OnMessage(ms[i]);
        i := i + 1;
      }
      assert ms[..|ms|] == ms;
    }
  }

  /** With an unusable URL nothing happens, and unmounting closes nothing. */
  method Unconfigured(url: Option<string>) returns (closeCalls: nat, state: ReadyState)
    requires !Usable(url)
    ensures closeCalls == 0 && state == Closed
  {
    var s := new Subscription(url);
    s.Cleanup();
    closeCalls := s.closeCalls;
    state := s.state;
  }

  /** A bulk update pushed to an open socket refreshes nothing. */
  method BulkUpdateIgnored(url: Option<string>, ids: seq<int>, enabled: bool) returns (refreshes: nat)
    requires Usable(url)
    ensures refreshes == 0
  {
    var s := new Subscription(url);
    s.OnOpen();
    TagGap(FlagsUpdated(ids, enabled));
    s.OnMessage(Wire(FlagsUpdated(ids, enabled)));
    refreshes := s.refreshes;
  }
}

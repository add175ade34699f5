/** The per-call request protocol (adt/client.go): CSRF preflight, request, retry after 401 or 403.

    The server, the refresh and the other requests of the session are arbitrary functions of the
    position in the call, so every contract below holds for every behaviour of theirs. */
module Client {
  import opened Wrappers

  const UNAUTHORIZED := 401
  const FORBIDDEN := 403

  datatype Reply = Status(code: nat, csrf: string, secureCookies: bool, body: string) | NoReply

  /** What one session does: the preflight, the request itself, or a token refresh after a 401.
      cred is the access token sent ("" for Basic Auth). */
  datatype Event =
    | Preflight(cred: string, reply: Reply)
    | Request(cred: string, body: string, csrf: string, reply: Reply)
    | Refresh(sent: string, ok: bool)

  datatype Error =
    | NetworkError
    | Rejected401
    | RefreshFailed
    | UnresolvedPlaceholder
    | SecureCookiesDropped

  datatype Result = Response(reply: Reply) | Failed(error: Error)

  /** Everything outside the call. The first three are asked at a position of the log: the server's
      reply, the outcome of refreshAfter401 and the current token. others(k) is what other requests
      of the session wrote to csrfToken before the k-th critical section of the call. */
  datatype World = World(
    reply: nat -> Reply, refreshed: nat -> bool, token: nat -> string, others: nat -> Option<string>)

  predicate IsRejected(e: Event) {
    (e.Preflight? || e.Request?) && e.reply.Status? && e.reply.code == UNAUTHORIZED
  }

  predicate NoRequests(call: seq<Event>) { forall e | e in call :: !e.Request? }

  predicate IsForbidden(e: Event) { e.Request? && e.reply.Status? && e.reply.code == FORBIDDEN }

  predicate IsRefreshed(e: Event) { e.Refresh? && e.ok }

  /** What a call sends: a GET, or a mutating request with a body. */
  datatype Kind = Read | Mutate(body: string)

  /** What has to be known of a call's events so far: how many there were, the last two of them, and
      whether all of them were allowed. */
  datatype Tally = Tally(requests: nat, refreshes: nat, last: Option<Event>, before: Option<Event>, disciplined: bool)

  /** The request may be repeated after this reply. */
  predicate Retryable(reply: Reply, kind: Kind) {
    reply.Status? && (reply.code == UNAUTHORIZED || (kind.Mutate? && reply.code == FORBIDDEN))
  }

  /** When e may come next in a call. */
  predicate Allowed(t: Tally, e: Event, kind: Kind, canRefresh: bool) {
       // every request of the call carries the call's body; a repeated one also the CSRF token of
       // the preflight right before it
    && (e.Request? ==> e.body == if kind.Mutate? then kind.body else "")
    && (e.Request? && t.requests > 0 ==>
          t.last.Some? && t.last.value.Preflight? && t.last.value.reply.Status?
          && (kind.Mutate? ==> e.csrf == t.last.value.reply.csrf))
       // a refresh answers the 401 right before it, with the token that 401 rejected
    && (e.Refresh? ==> canRefresh && t.last.Some? && IsRejected(t.last.value) && e.sent == t.last.value.cred)
    && (t.last.Some? ==>
          && (IsRejected(t.last.value) ==> e.Refresh?)
          && (t.last.value.Request? ==> Retryable(t.last.value.reply, kind))
          && (if t.last.value.Refresh? then t.last.value.ok else t.last.value.reply.Status?))
  }

  function Add(t: Tally, e: Event, kind: Kind, canRefresh: bool): Tally {
    Tally(t.requests + (if e.Request? then 1 else 0), t.refreshes + (if e.Refresh? then 1 else 0),
          Some(e), t.last, t.disciplined && Allowed(t, e, kind, canRefresh))
  }

  function TallyOf(call: seq<Event>, kind: Kind, canRefresh: bool): Tally {
    if call == [] then Tally(0, 0, None, None, true)
    else Add(TallyOf(call[..|call| - 1], kind, canRefresh), call[|call| - 1], kind, canRefresh)
  }

  /** Any beginning of a disciplined call is disciplined. */
  lemma {:induction false} DisciplinedPrefix(call: seq<Event>, kind: Kind, canRefresh: bool, k: nat)
    requires TallyOf(call, kind, canRefresh).disciplined && k < |call|
    ensures TallyOf(call[..k], kind, canRefresh).disciplined
    ensures Allowed(TallyOf(call[..k], kind, canRefresh), call[k], kind, canRefresh)
    ensures k > 0 ==> TallyOf(call[..k], kind, canRefresh).last == Some(call[k - 1])
  {
    var n := |call| - 1;
    if k < n {
      DisciplinedPrefix(call[..n], kind, canRefresh, k);
      assert call[..n][..k] == call[..k];
    }
  }

  /** In a disciplined call a 401 is the last event when the credential cannot be refreshed, wherever
      it comes; otherwise what follows it is a refresh of the token it rejected. */
  lemma {:induction false} AfterA401(call: seq<Event>, kind: Kind, canRefresh: bool, k: nat)
    requires TallyOf(call, kind, canRefresh).disciplined && k < |call| - 1 && IsRejected(call[k])
    ensures canRefresh && call[k + 1].Refresh? && call[k + 1].sent == call[k].cred
  {
    DisciplinedPrefix(call, kind, canRefresh, k + 1);
  }

  lemma {:induction false} NoneRequested(call: seq<Event>, kind: Kind, canRefresh: bool)
    requires TallyOf(call, kind, canRefresh).requests == 0
    ensures NoRequests(call)
  {
    if call != [] {
      var n := |call| - 1;
      NoneRequested(call[..n], kind, canRefresh);
      assert call == call[..n] + [call[n]];
    }
  }

  /** All requests of a disciplined call carry the same body. */
  lemma {:induction false} SameBody(call: seq<Event>, kind: Kind, canRefresh: bool, i: nat, j: nat)
    requires TallyOf(call, kind, canRefresh).disciplined
    requires i < |call| && j < |call| && call[i].Request? && call[j].Request?
    ensures call[i].body == call[j].body
  {
    DisciplinedPrefix(call, kind, canRefresh, i);
    DisciplinedPrefix(call, kind, canRefresh, j);
  }

  /** httpClient, as far as one session's requests go. */
  class Session {
    const canRefresh: bool
    const unresolved: bool
    var csrfToken: string
    var hasSecureCookies: bool
    /** The discovery document the content types are negotiated from. */
    var discovery: Option<string>
    var log: seq<Event>

    constructor (canRefresh: bool, unresolved: bool)
      ensures this.canRefresh == canRefresh && this.unresolved == unresolved
      ensures csrfToken == "" && !hasSecureCookies && discovery == None && log == []
    {
      this.canRefresh, this.unresolved := canRefresh, unresolved;
      csrfToken, hasSecureCookies, discovery, log := "", false, None, [];
    }

    /** The tally of the call that started when the log had start events. */
    function Sum(start: nat, kind: Kind): Tally
      reads this
      requires start <= |log|
    {
      TallyOf(log[start..], kind, canRefresh)
    }

    method Record(e: Event, ghost start: nat, ghost kind: Kind)
      requires start <= |log|
      modifies this`log
      ensures log == old(log) + [e]
      ensures Sum(start, kind) == Add(old(Sum(start, kind)), e, kind, canRefresh)
    {
      log := log + [e];
      assert log[start..] == old(log[start..]) + [e];
      assert log[start..][..|log[start..]| - 1] == old(log[start..]);
    }

    /** The CSRF token a critical section finds, if the call left this one. */
    static function TokenAt(w: World, section: nat, csrf: string): string {
      if w.others(section).Some? then w.others(section).value else csrf
    }

    /** Entering a critical section: other requests may have written the CSRF token meanwhile. */
    method Lock(w: World, section: nat)
      modifies this`csrfToken
      ensures csrfToken == TokenAt(w, section, old(csrfToken))
    {
      if w.others(section).Some? {
        csrfToken := w.others(section).value;
      }
    }

    /** A Basic-auth credential that is still a placeholder is refused before anything is sent. */
    predicate Refused(cred: string) { cred == "" && unresolved }

    /** Only a successful reply with a body carries a discovery document. */
    static predicate IsDiscovery(reply: Reply) { reply.Status? && 200 <= reply.code < 300 && reply.body != "" }

    /** fetchCSRFToken. */
    method FetchCSRFToken(w: World, ghost start: nat, ghost kind: Kind) returns (sent: string, error: Option<Error>)
      requires start <= |log|
      modifies this
      ensures sent == w.token(|old(log)|)
      ensures if Refused(sent) then
                log == old(log) && error == Some(UnresolvedPlaceholder)
                && csrfToken == old(csrfToken) && hasSecureCookies == old(hasSecureCookies)
                && discovery == old(discovery)
              else
                var reply := w.reply(|old(log)|);
                var e := Preflight(sent, reply);
                && log == old(log) + [e]
                && Sum(start, kind) == Add(old(Sum(start, kind)), e, kind, canRefresh)
                && (reply.NoReply? ==> error == Some(NetworkError) && csrfToken == old(csrfToken))
                && (reply.Status? && reply.code == UNAUTHORIZED ==> error == Some(Rejected401) && csrfToken == "")
                && (reply.Status? && reply.code != UNAUTHORIZED ==>
                      error == None && csrfToken == reply.csrf && hasSecureCookies == reply.secureCookies)
                && (error.Some? ==> hasSecureCookies == old(hasSecureCookies))
                && discovery == if IsDiscovery(reply) then Some(reply.body) else old(discovery)
      ensures Happened(w, log, |old(log)|)
    {
      sent := w.token(|log|);
      if Refused(sent) {
        return sent, Some(UnresolvedPlaceholder);
      }
      var reply := w.reply(|log|);
      NextHappened(w, log, Preflight(sent, reply));
      Record(Preflight(sent, reply), start, kind);
      if reply.NoReply? {
        return sent, Some(NetworkError);
      }
      if reply.code == UNAUTHORIZED {
        csrfToken := "";
        return sent, Some(Rejected401);
      }
      if 200 <= reply.code < 300 && |reply.body| > 0 {
        discovery := Some(reply.body);
      }
      csrfToken := reply.csrf;
      hasSecureCookies := reply.secureCookies;
      return sent, None;
    }

    method RefreshAfter401(w: World, sent: string, ghost start: nat, ghost kind: Kind) returns (ok: bool)
      requires start <= |log|
      modifies this`log
      ensures ok == w.refreshed(|old(log)|) && log == old(log) + [Refresh(sent, ok)]
      ensures Sum(start, kind) == Add(old(Sum(start, kind)), Refresh(sent, ok), kind, canRefresh)
      ensures Happened(w, log, |old(log)|)
    {
      ok := w.refreshed(|log|);
      NextHappened(w, log, Refresh(sent, ok));
      Record(Refresh(sent, ok), start, kind);
    }

    method SendRequest(w: World, body: string, csrf: string, ghost start: nat, ghost kind: Kind)
      returns (sent: string, r: Result)
      requires start <= |log|
      modifies this`log
      ensures sent == w.token(|old(log)|)
      ensures if Refused(sent) then
                log == old(log) && r == Failed(UnresolvedPlaceholder)
              else
                var reply := w.reply(|old(log)|);
                var e := Request(sent, body, csrf, reply);
                && log == old(log) + [e]
                && Sum(start, kind) == Add(old(Sum(start, kind)), e, kind, canRefresh)
                && r == if reply.NoReply? then Failed(NetworkError) else Response(reply)
      ensures Happened(w, log, |old(log)|)
    {
      sent := w.token(|log|);
      if Refused(sent) {
        return sent, Failed(UnresolvedPlaceholder);
      }
      var reply := w.reply(|log|);
      NextHappened(w, log, Request(sent, body, csrf, reply));
      Record(Request(sent, body, csrf, reply), start, kind);
      return sent, if reply.NoReply? then Failed(NetworkError) else Response(reply);
    }

    /** A call may go on after these events. */
    static predicate Proceeds(t: Tally) {
      t.last.Some? ==>
        var last := t.last.value;
        !IsRejected(last) && !last.Request? && if last.Refresh? then last.ok else last.reply.Status?
    }

    /** The last events of a call say why the call ended in this error. A preflight that is rejected
        ends it only when the token cannot be refreshed, has just been, or a 403 asked for the preflight. */
    predicate Explains(t: Tally, error: Error, w: World)
      reads this
    {
      match error
      case UnresolvedPlaceholder => Refused(w.token(|log|))
      case NetworkError => t.last.Some? && !t.last.value.Refresh? && t.last.value.reply.NoReply?
      case Rejected401 =>
        && t.last.Some? && t.last.value.Preflight? && IsRejected(t.last.value)
        && (canRefresh ==> t.before.Some? && (IsRefreshed(t.before.value) || IsForbidden(t.before.value)))
      case RefreshFailed => t.last.Some? && t.last.value.Refresh? && !t.last.value.ok
      case SecureCookiesDropped =>
        && t.requests == 2 && t.last.Some? && IsForbidden(t.last.value)
        && t.before.Some? && t.before.value.Preflight? && t.before.value.reply.Status?
        && t.before.value.reply.secureCookies
    }

    /** The call ended as it should: with a reply that was worth returning, or an explained error. */
    predicate EndsWell(t: Tally, r: Result, kind: Kind, w: World)
      reads this
    {
      match r
      case Failed(error) => Explains(t, error, w)
      case Response(reply) =>
        && t.last.Some? && t.last.value.Request? && reply == t.last.value.reply && reply.Status?
           // a first reply that can be answered by a retry is never returned
        && (t.requests == 1 ==> !Retryable(reply, kind) || (reply.code == UNAUTHORIZED && !canRefresh))
           // nor is a second 403 that dropped Secure cookies explain
        && (t.requests == 2 && kind.Mutate? && reply.code == FORBIDDEN ==>
              t.before.Some? && t.before.value.Preflight? && t.before.value.reply.Status?
              && !t.before.value.reply.secureCookies)
    }

    /** The event at position k of the log is what the outside made of it. */
    predicate IsEvent(w: World, k: nat, e: Event) {
      match e
      case Preflight(cred, reply) => cred == w.token(k) && reply == w.reply(k) && !Refused(cred)
      case Request(cred, _, _, reply) => cred == w.token(k) && reply == w.reply(k) && !Refused(cred)
      case Refresh(_, ok) => ok == w.refreshed(k)
    }

    /** Everything the log has from some position on happened. */
    ghost predicate Happened(w: World, log: seq<Event>, from: nat) {
      forall k {:trigger IsEvent(w, k, log[k])} | from <= k < |log| :: IsEvent(w, k, log[k])
    }

    lemma {:induction false} NextHappened(w: World, before: seq<Event>, e: Event)
      requires IsEvent(w, |before|, e)
      ensures Happened(w, before + [e], |before|)
    {
      assert (before + [e])[|before|] == e;
    }

    lemma {:induction false} HappenedSince(w: World, before: seq<Event>, log: seq<Event>, from: nat)
      requires |before| <= |log| && log[..|before|] == before
      requires Happened(w, before, from) && Happened(w, log, |before|)
      ensures Happened(w, log, from)
    {
      forall k {:trigger IsEvent(w, k, log[k])} | from <= k < |log| ensures IsEvent(w, k, log[k]) {
        if k < |before| {
          assert IsEvent(w, k, before[k]) && log[..|before|][k] == log[k];
        }
      }
    }

    /** The token ensureCSRF leaves for the request: the one it found, or the one its preflight got. */
    function Left(w: World, found: string, t: Tally): string {
      if t.last.None? then found
      else match t.last.value
           case Preflight(_, reply) => if reply.Status? then reply.csrf else ""
           case _ => TokenAt(w, 1, "")
    }

    /** ensureCSRF: the preflight part of a call. Without a token at hand it sends the preflight, and,
        when that is rejected and the token can be refreshed, refreshes it and sends another one. */
    method EnsureCSRF(w: World, ghost kind: Kind) returns (error: Option<Error>)
      modifies this
      ensures |log| >= |old(log)| && log[..|old(log)|] == old(log) && Happened(w, log, |old(log)|)
      ensures var t, found := Sum(|old(log)|, kind), TokenAt(w, 0, old(csrfToken));
              && t.disciplined && t.requests == 0 && t.refreshes <= 1
              && (found != "" ==> error == None && log == old(log))
              && (if error == None then Proceeds(t) else Explains(t, error.value, w))
              && (error == None ==> csrfToken == Left(w, found, t))
              && (error == None && t.last.None? ==> found != "")
              && (error == None && t.last.Some? && t.last.value.Refresh? ==> csrfToken != "")
    {
      ghost var start := |log|;
      Lock(w, 0);
      if csrfToken != "" {
        return None;
      }
      var sent;
      sent, error := FetchCSRFToken(w, start, kind);
      if error == Some(Rejected401) && canRefresh {
        ghost var before := log;
        error := RepeatPreflight(w, sent, start, kind);
        HappenedSince(w, before, log, start);
      }
    }

    /** ensureCSRF, from a preflight that was rejected and a token that can be refreshed. */
    method RepeatPreflight(w: World, sent: string, ghost start: nat, ghost kind: Kind) returns (error: Option<Error>)
      requires start <= |log| && canRefresh && csrfToken == ""
      requires var t := Sum(start, kind);
               && t.disciplined && t.requests == 0 && t.refreshes == 0 && t.last.Some?
               && t.last.value.Preflight? && IsRejected(t.last.value) && t.last.value.cred == sent
      modifies this
      ensures |log| > |old(log)| && log[..|old(log)|] == old(log) && Happened(w, log, |old(log)|)
      ensures var t := Sum(start, kind);
              && t.disciplined && t.requests == 0 && t.refreshes == 1 && t.last.Some?
              && (if error == None then Proceeds(t) else Explains(t, error.value, w))
              && (error == None ==> csrfToken == Left(w, "", t))
              && (error == None && t.last.value.Refresh? ==> csrfToken != "")
    {
      var ok := RefreshAfter401(w, sent, start, kind);
      if !ok {
        return Some(RefreshFailed);
      }
      Lock(w, 1);
      if csrfToken != "" {
        return None;
      }
      ghost var before := log;
      var sent';
      sent', error := FetchCSRFToken(w, start, kind);
      HappenedSince(w, before, log, |old(log)|);
    }

    /** What a call's request finds: nothing was requested before it, the preflight was left out only
        when a token was at hand, and a mutating one carries the token ensureCSRF left, or one another
        request of the session got since. */
    ghost predicate IsFirst(w: World, before: seq<Event>, e: Event, csrf0: string, kind: Kind) {
      var found := TokenAt(w, 0, csrf0);
      && NoRequests(before) && e.Request? && (before == [] <==> found != "")
      && (kind.Mutate? ==> e.csrf == TokenAt(w, 2, Left(w, found, TallyOf(before, kind, canRefresh))))
    }

    /** A call makes no request, or its first one is event k. */
    ghost predicate FirstRequest(w: World, call: seq<Event>, first: Option<nat>, csrf0: string, kind: Kind) {
      if first.None? then NoRequests(call)
      else first.value < |call| && IsFirst(w, call[..first.value], call[first.value], csrf0, kind)
    }

    lemma {:induction false} FirstStays(w: World, call: seq<Event>, longer: seq<Event>, k: nat, csrf0: string,
                                        kind: Kind)
      requires call <= longer && FirstRequest(w, call, Some(k), csrf0, kind)
      ensures FirstRequest(w, longer, Some(k), csrf0, kind)
    {
      assert longer[..k] == call[..k];
    }

    lemma {:induction false} FirstIsNext(w: World, before: seq<Event>, e: Event, start: nat, csrf0: string,
                                         kind: Kind)
      requires start <= |before| && IsFirst(w, before[start..], e, csrf0, kind)
      requires Happened(w, before, start) && Happened(w, before + [e], |before|)
      ensures FirstRequest(w, (before + [e])[start..], Some(|before| - start), csrf0, kind)
      ensures Happened(w, before + [e], start)
    {
      HappenedSince(w, before, before + [e], start);
      assert (before + [e])[start..] == before[start..] + [e];
      assert (before[start..] + [e])[..|before| - start] == before[start..];
    }

    lemma {:induction false} FirstIsAllowed(t: Tally, e: Event, kind: Kind)
      requires t.disciplined && t.requests == 0 && Proceeds(t)
      requires e.Request? && e.body == if kind.Mutate? then kind.body else ""
      ensures Add(t, e, kind, canRefresh) == Tally(1, t.refreshes, Some(e), t.last, true)
    {}

    /** How a call stands with the reply to its first request. */
    predicate FirstEnds(t: Tally, sent: string, r: Result, w: World)
      reads this
    {
      && t.disciplined && t.requests <= 1 && t.refreshes <= 1
      && if r.Failed? then Explains(t, r.error, w)
         else && t.requests == 1 && t.last.Some? && t.last.value.Request? && t.last.value.cred == sent
              && r.reply == t.last.value.reply && r.reply.Status?
    }

    /** The first request, with the token at hand. */
    method SendFirst(w: World, kind: Kind, ghost start: nat, ghost csrf0: string)
      returns (sent: string, r: Result, ghost first: Option<nat>)
      requires start <= |log| && NoRequests(log[start..]) && Happened(w, log, start)
      requires var t, found := Sum(start, kind), TokenAt(w, 0, csrf0);
               && t.disciplined && t.requests == 0 && t.refreshes <= 1 && Proceeds(t)
               && csrfToken == Left(w, found, t) && (log[start..] == [] <==> found != "")
      modifies this
      ensures |log| >= |old(log)| && log[..|old(log)|] == old(log) && Happened(w, log, start)
      ensures FirstEnds(Sum(start, kind), sent, r, w)
      ensures FirstRequest(w, log[start..], first, csrf0, kind) && (r.Response? ==> first.Some?)
    {
      ghost var before := log;
      first := None;
      var body, csrf := "", "";
      if kind.Mutate? {
        Lock(w, 2);
        body, csrf := kind.body, csrfToken;
      }
      sent, r := SendRequest(w, body, csrf, start, kind);
      if !Refused(sent) {
        ghost var e := Request(sent, body, csrf, w.reply(|before|));
        first := Some(|before| - start);
        FirstIsAllowed(old(Sum(start, kind)), e, kind);
        FirstIsNext(w, before, e, start, csrf0, kind);
      }
    }

    lemma {:induction false} NoneYet(call: seq<Event>, kind: Kind)
      ensures TallyOf(call, kind, canRefresh).last.None? <==> call == []
    {}

    /** doReadWith and doMutateWith, up to the reply to the first request. */
    method FirstAttempt(w: World, kind: Kind) returns (sent: string, r: Result, ghost first: Option<nat>)
      modifies this
      ensures |log| >= |old(log)| && log[..|old(log)|] == old(log) && Happened(w, log, |old(log)|)
      ensures FirstEnds(Sum(|old(log)|, kind), sent, r, w)
      ensures FirstRequest(w, log[|old(log)|..], first, old(csrfToken), kind) && (r.Response? ==> first.Some?)
    {
      ghost var start := |log|;
      sent, first := "", None;
      var error := EnsureCSRF(w, kind);
      NoneRequested(log[start..], kind, canRefresh);
      if error.Some? {
        return sent, Failed(error.value), first;
      }
      NoneYet(log[start..], kind);
      ghost var before := log;
      sent, r, first := SendFirst(w, kind, start, old(csrfToken));
      assert log[..start] == log[..|before|][..start];
    }

    /** doReadWith. For every server: at most two requests and two refreshes, all allowed, and the
        caller gets the reply to the last request. */
    method DoRead(w: World) returns (r: Result, ghost first: Option<nat>)
      modifies this
      ensures |log| >= |old(log)| && log[..|old(log)|] == old(log) && Happened(w, log, |old(log)|)
      ensures var t := Sum(|old(log)|, Read);
              && t.disciplined && t.requests <= 2 && t.refreshes <= 2 && EndsWell(t, r, Read, w)
      ensures FirstRequest(w, log[|old(log)|..], first, old(csrfToken), Read)
    {
      ghost var start := |log|;
      var sent;
      sent, r, first := FirstAttempt(w, Read);
      if r.Failed? || r.reply.code != UNAUTHORIZED || !canRefresh {
        return;
      }
      ghost var call := log[start..];
      r := RetryRead(w, sent, start);
      FirstStays(w, call, log[start..], first.value, old(csrfToken), Read);
    }

    /** doReadWith, from a 401 after which the token can be refreshed. */
    method RetryRead(w: World, sent: string, ghost start: nat) returns (r: Result)
      requires start <= |log| && canRefresh
      requires var t := Sum(start, Read);
               && t.disciplined && t.requests == 1 && t.last.Some? && t.last.value.Request?
               && t.last.value.cred == sent && IsRejected(t.last.value)
      modifies this
      ensures |log| >= |old(log)| && log[..|old(log)|] == old(log) && Happened(w, log, |old(log)|)
      ensures var t := Sum(start, Read);
              && t.disciplined && t.requests <= 2 && t.refreshes == old(Sum(start, Read)).refreshes + 1
              && EndsWell(t, r, Read, w)
    {
      var ok := RefreshAfter401(w, sent, start, Read);
      if !ok {
        return Failed(RefreshFailed);
      }
      Lock(w, 3);
      var sent', error := FetchCSRFToken(w, start, Read);
      if error.Some? {
        return Failed(error.value);
      }
      sent', r := SendRequest(w, "", "", start, Read);
    }

    /** doMutateWith. As doReadWith; a 403 is retried too, without a refresh, and a second 403 from a
        system that sets Secure cookies over plain HTTP is explained. */
    method DoMutate(w: World, body: string) returns (r: Result, ghost first: Option<nat>)
      modifies this
      ensures |log| >= |old(log)| && log[..|old(log)|] == old(log) && Happened(w, log, |old(log)|)
      ensures var t := Sum(|old(log)|, Mutate(body));
              && t.disciplined && t.requests <= 2 && t.refreshes <= 2 && EndsWell(t, r, Mutate(body), w)
              && (r == Failed(SecureCookiesDropped) ==> hasSecureCookies)
              && (r.Response? && t.requests == 2 && r.reply.code == FORBIDDEN ==> !hasSecureCookies)
      ensures FirstRequest(w, log[|old(log)|..], first, old(csrfToken), Mutate(body))
    {
      ghost var start := |log|;
      var sent;
      sent, r, first := FirstAttempt(w, Mutate(body));
      if r.Failed? || (r.reply.code == UNAUTHORIZED && !canRefresh) {
        return;
      }
      if r.reply.code == FORBIDDEN || r.reply.code == UNAUTHORIZED {
        ghost var call := log[start..];
        r := RetryMutate(w, body, sent, r.reply.code == UNAUTHORIZED, start);
        FirstStays(w, call, log[start..], first.value, old(csrfToken), Mutate(body));
      }
    }

    /** doMutateWith, from the reply that is retried on: after a 401 the token is refreshed first. */
    method RetryMutate(w: World, body: string, sent: string, refresh: bool, ghost start: nat) returns (r: Result)
      requires start <= |log|
      requires var t := Sum(start, Mutate(body));
               && t.disciplined && t.requests == 1 && t.last.Some? && t.last.value.Request?
               && t.last.value.cred == sent && Retryable(t.last.value.reply, Mutate(body))
               && refresh == (t.last.value.reply.code == UNAUTHORIZED) && (refresh ==> canRefresh)
      modifies this
      ensures |log| >= |old(log)| && log[..|old(log)|] == old(log) && Happened(w, log, |old(log)|)
      ensures var t := Sum(start, Mutate(body));
              && t.disciplined && t.requests <= 2 && t.refreshes <= old(Sum(start, Mutate(body))).refreshes + 1
              && EndsWell(t, r, Mutate(body), w) && (r.Response? ==> t.requests == 2)
              && (r == Failed(SecureCookiesDropped) ==> hasSecureCookies)
              && (r.Response? && r.reply.code == FORBIDDEN ==> !hasSecureCookies)
    {
      if refresh {
        var ok := RefreshAfter401(w, sent, start, Mutate(body));
        if !ok {
          return Failed(RefreshFailed);
        }
      }
      Lock(w, 3);
      r := SecondAttempt(w, body, start);
    }

    /** doMutateWith, the second attempt: a new CSRF token, then the request once more. */
    method SecondAttempt(w: World, body: string, ghost start: nat) returns (r: Result)
      requires start <= |log|
      requires var t := Sum(start, Mutate(body));
               t.disciplined && t.requests == 1 && t.last.Some?
               && (IsRefreshed(t.last.value) || IsForbidden(t.last.value))
      modifies this
      ensures |log| >= |old(log)| && log[..|old(log)|] == old(log) && Happened(w, log, |old(log)|)
      ensures var t := Sum(start, Mutate(body));
              && t.disciplined && t.requests <= 2 && t.refreshes == old(Sum(start, Mutate(body))).refreshes
              && EndsWell(t, r, Mutate(body), w) && (r.Response? ==> t.requests == 2)
              && (r == Failed(SecureCookiesDropped) ==> hasSecureCookies)
              && (r.Response? && r.reply.code == FORBIDDEN ==> !hasSecureCookies)
    {
      var sent, error := FetchCSRFToken(w, start, Mutate(body));
      if error.Some? {
        return Failed(error.value);
      }
      var secureCookies := hasSecureCookies;
      sent, r := SendRequest(w, body, csrfToken, start, Mutate(body));
      if r.Response? && r.reply.code == FORBIDDEN && secureCookies {
        return Failed(SecureCookiesDropped);
      }
    }
  }
}

/** Correlating forwarded commands with device responses and timeouts, so that each gets one reply. */
module RelayRequests {
  import opened Wrappers

  /** `req-<counter>-<time>`. */
  datatype RequestId = RequestId(counter: nat, at: int)

  datatype Audit = PendingAudit | SuccessAudit | ErrorAudit | TimeoutAudit

  /** A second reply to the same HTTP request is refused by the server library, which throws before the audit entry. */
  datatype Relay = Relay(
    counter: nat,
    pending: set<RequestId>,
    timers: set<RequestId>,
    expired: set<RequestId>,
    replies: map<RequestId, seq<int>>,
    audits: map<RequestId, seq<Audit>>,
    refused: map<RequestId, nat>,
    unsent: set<RequestId>)

  /** `Forward` carries the clock, whether the command is answered by the relay itself, and whether sending throws. */
  datatype Event =
    | Forward(at: int, direct: bool, sendThrows: bool)
    | DeviceResponse(id: RequestId, failed: bool)
    | TimerFires(id: RequestId)

  const INITIAL := Relay(0, {}, {}, {}, map[], map[], map[], {})

  function RepliesTo(s: Relay, id: RequestId): seq<int>
  {
    if id in s.replies then s.replies[id] else []
  }

  function AuditsOf(s: Relay, id: RequestId): seq<Audit>
  {
    if id in s.audits then s.audits[id] else []
  }

  function RefusedTo(s: Relay, id: RequestId): nat
  {
    if id in s.refused then s.refused[id] else 0
  }

  /** Reply and write the audit entry, unless a reply has been sent before. */
  function Answered(s: Relay, id: RequestId, code: int, audit: Option<Audit>): Relay
  {
    if RepliesTo(s, id) != [] then s.(refused := s.refused[id := RefusedTo(s, id) + 1])
    else
      s.(replies := s.replies[id := [code]],
         audits := if audit.Some? then s.audits[id := AuditsOf(s, id) + [audit.value]] else s.audits)
  }

  function Forwarded(s: Relay, at: int, direct: bool, sendThrows: bool): Relay
  {
    var id := RequestId(s.counter + 1, at);
    var started := s.(counter := s.counter + 1, audits := s.audits[id := [PendingAudit]]);
    if direct then Answered(started, id, 200, Some(SuccessAudit))
    else
      var registered := started.(pending := s.pending + {id}, timers := s.timers + {id});
      if sendThrows then Answered(registered.(unsent := s.unsent + {id}), id, 500, None) else registered
  }

  function Responded(s: Relay, id: RequestId, failed: bool): Relay
  {
    if id !in s.pending then s
    else if id in s.expired then s.(pending := s.pending - {id}, timers := s.timers - {id})
    else
      Answered(s.(pending := s.pending - {id}, timers := s.timers - {id}), id,
               if failed then 500 else 200, Some(if failed then ErrorAudit else SuccessAudit))
  }

  function Expired(s: Relay, id: RequestId): Relay
  {
    if id !in s.timers then s
    else
      Answered(s.(pending := s.pending - {id}, timers := s.timers - {id}, expired := s.expired + {id}), id, 504, Some(TimeoutAudit))
  }

  function Next(s: Relay, e: Event): Relay
  {
    match e
    case Forward(at, direct, sendThrows) => Forwarded(s, at, direct, sendThrows)
    case DeviceResponse(id, failed) => Responded(s, id, failed)
    case TimerFires(id) => Expired(s, id)
  }

  function Run(events: seq<Event>): Relay
  {
    if events == [] then INITIAL else Next(Run(events[..|events| - 1]), events[|events| - 1])
  }

  // ------------------------------------------------------- the server's own state

  /** `pendingRequests`, the request counter, the timers, and what has been sent and logged. */
  class Server {
    var counter: nat
    var pending: set<RequestId>
    var timers: set<RequestId>
    var expired: set<RequestId>
    var replies: map<RequestId, seq<int>>
    var audits: map<RequestId, seq<Audit>>
    var refused: map<RequestId, nat>
    var unsent: set<RequestId>

    ghost function State(): Relay
      reads this
    {
      Relay(counter, pending, timers, expired, replies, audits, refused, unsent)
    }

    constructor ()
      ensures State() == INITIAL
    {
      counter, pending, timers, expired, unsent := 0, {}, {}, {}, {};
      replies, audits, refused := map[], map[], map[];
    }

    /** `generateRequestId`. */
    method GenerateRequestId(at: int) returns (id: RequestId)
      modifies this`counter
      ensures counter == old(counter) + 1 && id == RequestId(counter, at)
    {
      counter := counter + 1;
      return RequestId(counter, at);
    }

    method Answer(id: RequestId, code: int, audit: Option<Audit>)
      modifies this`replies, this`audits, this`refused
      ensures State() == Answered(old(State()), id, code, audit)
    {
      if id in replies && replies[id] != [] {
        refused := refused[id := (if id in refused then refused[id] else 0) + 1];
        return;
      }
      replies := replies[id := [code]];
      if audit.Some? { audits := audits[id := (if id in audits then audits[id] else []) + [audit.value]]; }
    }

    /** The action-proxy handler from `generateRequestId` on. */
    method ForwardCommand(at: int, direct: bool, sendThrows: bool) returns (id: RequestId)
      modifies this
      ensures State() == Forwarded(old(State()), at, direct, sendThrows)
      ensures id == RequestId(old(counter) + 1, at)
    {
      id := GenerateRequestId(at);
      audits := audits[id := [PendingAudit]];
      if direct {
        Answer(id, 200, Some(SuccessAudit));
        return;
      }
      timers := timers + {id};
      pending := pending + {id};
      if sendThrows {
        unsent := unsent + {id};
        Answer(id, 500, None);
      }
    }

    /** The `command_response` message handler with the stored `resolve` and `reject`. */
    method HandleResponse(id: RequestId, failed: bool)
      modifies this
      ensures State() == Responded(old(State()), id, failed)
    {
      if id !in pending { return; }
      timers := timers - {id};
      if id in expired {
        pending := pending - {id};
        return;
      }
      pending := pending - {id};
      if failed { Answer(id, 500, Some(ErrorAudit)); } else { Answer(id, 200, Some(SuccessAudit)); }
    }

    /** The timeout callback. */
    method HandleTimeout(id: RequestId)
      requires id in timers
      modifies this
      ensures State() == Expired(old(State()), id)
    {
      timers := timers - {id};
      expired := expired + {id};
      pending := pending - {id};
      Answer(id, 504, Some(TimeoutAudit));
    }
  }

  // ------------------------------------------------------- exactly one reply

  /** The audit entry that goes with a reply. */
  predicate Matching(code: int, a: Audit)
  {
    (code == 200 && a == SuccessAudit) || (code == 500 && a == ErrorAudit) || (code == 504 && a == TimeoutAudit)
  }

  /** A request that is waiting: registered, timed, unanswered. */
  predicate Waiting(s: Relay, id: RequestId)
  {
    && id in s.pending && id in s.timers && id !in s.expired
    && RepliesTo(s, id) == [] && RefusedTo(s, id) == 0 && AuditsOf(s, id) == [PendingAudit]
  }

  /** A request that is done: one reply, one terminal audit entry that matches it. */
  predicate Done(s: Relay, id: RequestId)
  {
    && id !in s.pending && id !in s.timers
    && |RepliesTo(s, id)| == 1 && RefusedTo(s, id) == 0
    && |AuditsOf(s, id)| == 2 && AuditsOf(s, id)[0] == PendingAudit && Matching(RepliesTo(s, id)[0], AuditsOf(s, id)[1])
  }

  /** A request whose command could not be sent: answered at once, and answered again when it is settled. */
  predicate Unsent(s: Relay, id: RequestId)
  {
    && RepliesTo(s, id) == [500] && AuditsOf(s, id) == [PendingAudit]
    && (id in s.pending <==> id in s.timers)
    && (id in s.pending ==> id !in s.expired)
    && RefusedTo(s, id) == if id in s.pending then 0 else 1
  }

  /** What is true of every request the relay has seen. */
  predicate Settling(s: Relay, id: RequestId)
  {
    if id in s.unsent then Unsent(s, id) else Waiting(s, id) || Done(s, id)
  }

  ghost predicate Inv(s: Relay)
  {
    && (forall id :: id in s.audits ==> 0 < id.counter <= s.counter && Settling(s, id))
    && s.pending <= s.audits.Keys && s.timers <= s.audits.Keys && s.expired <= s.audits.Keys && s.unsent <= s.audits.Keys
    && s.replies.Keys <= s.audits.Keys && s.refused.Keys <= s.audits.Keys
  }

  /** Nothing about this request differs. */
  predicate SameFor(s: Relay, t: Relay, id: RequestId)
  {
    && (id in t.pending <==> id in s.pending) && (id in t.timers <==> id in s.timers)
    && (id in t.expired <==> id in s.expired) && (id in t.unsent <==> id in s.unsent)
    && RepliesTo(t, id) == RepliesTo(s, id) && AuditsOf(t, id) == AuditsOf(s, id) && RefusedTo(t, id) == RefusedTo(s, id)
  }

  lemma AnsweredOthers(s: Relay, id: RequestId, code: int, audit: Option<Audit>, other: RequestId)
    requires other != id
    ensures SameFor(s, Answered(s, id, code, audit), other)
  {
  }

  lemma AnsweredKnown(s: Relay, id: RequestId, code: int, audit: Option<Audit>)
    ensures var t := Answered(s, id, code, audit);
      && t.pending == s.pending && t.timers == s.timers && t.expired == s.expired && t.unsent == s.unsent && t.counter == s.counter
      && t.audits.Keys <= s.audits.Keys + {id} && s.audits.Keys <= t.audits.Keys
      && t.replies.Keys <= s.replies.Keys + {id} && t.refused.Keys <= s.refused.Keys + {id}
  {
  }

  lemma ForwardSettles(s: Relay, at: int, direct: bool, sendThrows: bool)
    requires Inv(s)
    ensures Settling(Forwarded(s, at, direct, sendThrows), RequestId(s.counter + 1, at))
  {
    var id := RequestId(s.counter + 1, at);
    assert id !in s.audits;
    assert RepliesTo(s, id) == [] && RefusedTo(s, id) == 0;
  }

  lemma ForwardOthers(s: Relay, at: int, direct: bool, sendThrows: bool, k: RequestId)
    requires k != RequestId(s.counter + 1, at)
    ensures SameFor(s, Forwarded(s, at, direct, sendThrows), k)
    ensures k in Forwarded(s, at, direct, sendThrows).audits <==> k in s.audits
  {
  }

  lemma ForwardKeeps(s: Relay, at: int, direct: bool, sendThrows: bool)
    requires Inv(s)
    ensures Inv(Forwarded(s, at, direct, sendThrows))
  {
    var id := RequestId(s.counter + 1, at);
    var t := Forwarded(s, at, direct, sendThrows);
    assert id !in s.audits;
    ForwardSettles(s, at, direct, sendThrows);
    forall k | k in t.audits && k != id ensures 0 < k.counter <= t.counter && Settling(t, k) {
      ForwardOthers(s, at, direct, sendThrows, k);
    }
  }

  lemma SettledKeeps(s: Relay, t: Relay, id: RequestId)
    requires Inv(s) && id in s.audits && Settling(t, id)
    requires t.counter == s.counter && t.audits.Keys == s.audits.Keys
    requires t.pending <= s.pending && t.timers <= s.timers && t.expired <= s.expired + {id} && t.unsent == s.unsent
    requires t.replies.Keys <= s.replies.Keys + {id} && t.refused.Keys <= s.refused.Keys + {id}
    requires forall k :: k != id ==> SameFor(s, t, k)
    ensures Inv(t)
  {
    forall k | k in t.audits && k != id ensures 0 < k.counter <= t.counter && Settling(t, k) {
      assert k in s.audits && SameFor(s, t, k);
    }
  }

  /** Answering a request that was waiting, or could not be sent, once it is settled. */
  lemma AnswerKeeps(s: Relay, settled: Relay, id: RequestId, code: int, audit: Audit)
    requires Inv(s) && id in s.audits && (Waiting(s, id) || (Unsent(s, id) && id in s.pending)) && Matching(code, audit)
    requires id in s.unsent <==> Unsent(s, id)
    requires settled == s.(pending := s.pending - {id}, timers := s.timers - {id})
      || settled == s.(pending := s.pending - {id}, timers := s.timers - {id}, expired := s.expired + {id})
    ensures Inv(Answered(settled, id, code, Some(audit)))
  {
    var t := Answered(settled, id, code, Some(audit));
    AnsweredKnown(settled, id, code, Some(audit));
    AnswerSettles(s, settled, id, code, audit);
    forall k | k != id ensures SameFor(s, t, k) { AnsweredOthers(settled, id, code, Some(audit), k); }
    SettledKeeps(s, t, id);
  }

  lemma AnswerSettles(s: Relay, settled: Relay, id: RequestId, code: int, audit: Audit)
    requires (Waiting(s, id) || (Unsent(s, id) && id in s.pending)) && Matching(code, audit)
    requires id in s.unsent <==> Unsent(s, id)
    requires id !in settled.pending && id !in settled.timers && settled.unsent == s.unsent
    requires settled.replies == s.replies && settled.audits == s.audits && settled.refused == s.refused
    ensures Settling(Answered(settled, id, code, Some(audit)), id)
  {
  }

  lemma ResponseKeeps(s: Relay, id: RequestId, failed: bool)
    requires Inv(s)
    ensures Inv(Responded(s, id, failed))
  {
    if id in s.pending {
      assert Settling(s, id);
      var settled := s.(pending := s.pending - {id}, timers := s.timers - {id});
      AnswerKeeps(s, settled, id, if failed then 500 else 200, if failed then ErrorAudit else SuccessAudit);
    }
  }

  lemma TimeoutKeeps(s: Relay, id: RequestId)
    requires Inv(s)
    ensures Inv(Expired(s, id))
  {
    if id in s.timers {
      assert Settling(s, id);
      var settled := s.(pending := s.pending - {id}, timers := s.timers - {id}, expired := s.expired + {id});
      AnswerKeeps(s, settled, id, 504, TimeoutAudit);
    }
  }

  lemma {:induction false} RunKeeps(events: seq<Event>)
    ensures Inv(Run(events))
  {
    if events != [] {
      RunKeeps(events[..|events| - 1]);
      var s := Run(events[..|events| - 1]);
      match events[|events| - 1] {
        case Forward(at, direct, sendThrows) => ForwardKeeps(s, at, direct, sendThrows);
        case DeviceResponse(id, failed) => ResponseKeeps(s, id, failed);
        case TimerFires(id) => TimeoutKeeps(s, id);
      }
    }
  }

  /**
   * In every interleaving of responses, duplicates and timeouts, a request whose command was sent has at most one
   * reply and at most one terminal audit entry, which matches it, and is pending exactly until it is answered.
   */
  lemma OneReplyEach(events: seq<Event>, id: RequestId)
    requires id in Run(events).audits && id !in Run(events).unsent
    ensures var s := Run(events);
      && |RepliesTo(s, id)| <= 1 && RefusedTo(s, id) == 0
      && (id in s.pending <==> RepliesTo(s, id) == [])
      && |AuditsOf(s, id)| == 1 + |RepliesTo(s, id)|
      && (RepliesTo(s, id) != [] ==> Matching(RepliesTo(s, id)[0], AuditsOf(s, id)[1]))
  {
    RunKeeps(events);
  }

  // ------------------------------------------------------- which reply

  /** How many commands have been forwarded. */
  function Forwards(events: seq<Event>): nat
  {
    if events == [] then 0 else Forwards(events[..|events| - 1]) + if events[|events| - 1].Forward? then 1 else 0
  }

  lemma {:induction false} CounterCounts(events: seq<Event>)
    ensures Run(events).counter == Forwards(events)
  {
    if events != [] { CounterCounts(events[..|events| - 1]); }
  }

  /** Event `f` forwards a command, which is given this identity. */
  predicate Issues(events: seq<Event>, f: nat, id: RequestId)
  {
    f < |events| && events[f].Forward? && id == RequestId(Forwards(events[..f]) + 1, events[f].at)
  }

  /** A response to this request, or the end of its time. */
  predicate Ends(e: Event, id: RequestId)
  {
    e == DeviceResponse(id, true) || e == DeviceResponse(id, false) || e == TimerFires(id)
  }

  /** Event `n` is the first after `f` to end the request. */
  ghost predicate FirstEnd(events: seq<Event>, f: nat, n: nat, id: RequestId)
  {
    f < n < |events| && Ends(events[n], id) && forall m :: f < m < n ==> !Ends(events[m], id)
  }

  ghost predicate NeverEnds(events: seq<Event>, f: nat, id: RequestId)
  {
    forall m :: f < m < |events| ==> !Ends(events[m], id)
  }

  /** What the caller and the audit have been told of a request. */
  predicate Told(s: Relay, id: RequestId, replies: seq<int>, audits: seq<Audit>)
  {
    RepliesTo(s, id) == replies && AuditsOf(s, id) == audits
  }

  /** What the first event to end a request leads to. */
  predicate ToldBy(s: Relay, id: RequestId, e: Event)
  {
    && id !in s.pending && id !in s.timers
    && match e
       case DeviceResponse(_, failed) =>
         if failed then Told(s, id, [500], [PendingAudit, ErrorAudit]) else Told(s, id, [200], [PendingAudit, SuccessAudit])
       case TimerFires(_) => Told(s, id, [504], [PendingAudit, TimeoutAudit])
       case Forward(_, _, _) => false
  }

  lemma ResponseOthers(s: Relay, other: RequestId, failed: bool, id: RequestId)
    requires id != other
    ensures SameFor(s, Responded(s, other, failed), id)
  {
  }

  lemma TimeoutOthers(s: Relay, other: RequestId, id: RequestId)
    requires id != other
    ensures SameFor(s, Expired(s, other), id)
  {
  }

  lemma OthersKeep(s: Relay, e: Event, id: RequestId)
    requires Inv(s) && id in s.audits && !Ends(e, id)
    ensures SameFor(s, Next(s, e), id)
  {
    match e {
      case Forward(at, direct, sendThrows) => ForwardOthers(s, at, direct, sendThrows, id);
      case DeviceResponse(other, failed) => ResponseOthers(s, other, failed, id);
      case TimerFires(other) => TimeoutOthers(s, other, id);
    }
  }

  lemma SettledStays(s: Relay, e: Event, id: RequestId)
    requires Inv(s) && id in s.audits && id !in s.pending && id !in s.timers
    ensures SameFor(s, Next(s, e), id)
  {
    if !Ends(e, id) { OthersKeep(s, e, id); }
  }

  lemma FirstEndTells(s: Relay, e: Event, id: RequestId)
    requires Waiting(s, id) && Ends(e, id)
    ensures ToldBy(Next(s, e), id, e)
  {
  }

  /** What is told of a request that `first` has ended, or that nothing has. */
  predicate Decided(s: Relay, id: RequestId, first: Option<Event>)
  {
    && id in s.audits
    && if first.Some? then ToldBy(s, id, first.value) else Waiting(s, id) && Told(s, id, [], [PendingAudit])
  }

  lemma DecidedStep(s: Relay, e: Event, id: RequestId, first: Option<Event>)
    requires Inv(s) && Decided(s, id, first)
    ensures Decided(Next(s, e), id, if first.Some? then first else if Ends(e, id) then Some(e) else None)
  {
    KnownStays(s, e, id);
    if first.Some? {
      SettledStays(s, e, id);
    } else if Ends(e, id) {
      FirstEndTells(s, e, id);
    } else {
      OthersKeep(s, e, id);
    }
  }

  /** The first end of the request, found from the back. */
  ghost predicate IsFirstEnd(events: seq<Event>, f: nat, id: RequestId, first: Option<nat>)
  {
    if first.None? then NeverEnds(events, f, id) else FirstEnd(events, f, first.value, id)
  }

  lemma FirstEndStep(events: seq<Event>, f: nat, id: RequestId, first: Option<nat>)
    requires f + 1 < |events| && IsFirstEnd(events[..|events| - 1], f, id, first)
    ensures IsFirstEnd(events, f, id,
      if first.Some? then first else if Ends(events[|events| - 1], id) then Some(|events| - 1) else None)
  {
  }

  lemma ForwardTells(events: seq<Event>, f: nat, id: RequestId)
    requires Issues(events, f, id)
    ensures var s, e := Run(events[..f + 1]), events[f];
      && id in s.audits
      && if e.direct then id !in s.pending && id !in s.timers && Told(s, id, [200], [PendingAudit, SuccessAudit])
         else if e.sendThrows then Told(s, id, [500], [PendingAudit])
         else Waiting(s, id) && Told(s, id, [], [PendingAudit])
  {
    CounterCounts(events[..f]);
    RunKeeps(events[..f]);
    assert events[..f + 1][..f] == events[..f];
    assert id !in Run(events[..f]).audits;
  }

  lemma KnownStays(s: Relay, e: Event, id: RequestId)
    requires id in s.audits
    ensures id in Next(s, e).audits
  {
  }

  /**
   * In every run, the first event to end a request decides its one reply and its one terminal audit entry: a result
   * gives 200 and success, a device error 500 and error, the timeout 504 and timeout. Until then it is unanswered.
   */
  lemma FirstEndDecides(events: seq<Event>, f: nat, id: RequestId) returns (n: nat)
    requires Issues(events, f, id) && !events[f].direct && !events[f].sendThrows
    ensures var s := Run(events);
      && id in s.audits
      && if NeverEnds(events, f, id) then id in s.pending && Told(s, id, [], [PendingAudit])
         else FirstEnd(events, f, n, id) && ToldBy(s, id, events[n])
  {
    var first := SomeEndDecides(events, f, id);
    n := if first.Some? then first.value else 0;
  }

  lemma {:induction false} SomeEndDecides(events: seq<Event>, f: nat, id: RequestId) returns (first: Option<nat>)
    requires Issues(events, f, id) && !events[f].direct && !events[f].sendThrows
    ensures IsFirstEnd(events, f, id, first)
    ensures Decided(Run(events), id, if first.Some? then Some(events[first.value]) else None)
  {
    if |events| == f + 1 {
      first := None;
      assert events[..f + 1] == events;
      ForwardTells(events, f, id);
    } else {
      var k := |events| - 1;
      assert events[..k][..f] == events[..f];
      var before := SomeEndDecides(events[..k], f, id);
      RunKeeps(events[..k]);
      FirstEndStep(events, f, id, before);
      DecidedStep(Run(events[..k]), events[k], id, if before.Some? then Some(events[before.value]) else None);
      first := if before.Some? then before else if Ends(events[k], id) then Some(k) else None;
    }
  }

  /** A command the relay answers itself is answered 200 and logged as a success, whatever comes later. */
  lemma {:induction false} DirectIsAnswered(events: seq<Event>, f: nat, id: RequestId)
    requires Issues(events, f, id) && events[f].direct
    ensures var s := Run(events);
      && id in s.audits && id !in s.pending && id !in s.timers && Told(s, id, [200], [PendingAudit, SuccessAudit])
  {
    if |events| == f + 1 {
      assert events[..f + 1] == events;
      ForwardTells(events, f, id);
    } else {
      var past, e := events[..|events| - 1], events[|events| - 1];
      assert past[..f] == events[..f];
      DirectIsAnswered(past, f, id);
      RunKeeps(past);
      KnownStays(Run(past), e, id);
      SettledStays(Run(past), e, id);
    }
  }

  lemma OnlyForwardIssues(s: Relay, e: Event, id: RequestId)
    requires Inv(s) && id !in s.audits && id in Next(s, e).audits
    ensures e.Forward? && id == RequestId(s.counter + 1, e.at)
  {
    match e {
      case Forward(at, direct, sendThrows) =>
        if id != RequestId(s.counter + 1, at) { ForwardOthers(s, at, direct, sendThrows, id); }
      case DeviceResponse(other, failed) => ResponseKnows(s, other, failed);
      case TimerFires(other) => TimeoutKnows(s, other);
    }
  }

  lemma ResponseKnows(s: Relay, id: RequestId, failed: bool)
    requires s.pending <= s.audits.Keys
    ensures Responded(s, id, failed).audits.Keys == s.audits.Keys
  {
  }

  lemma TimeoutKnows(s: Relay, id: RequestId)
    requires s.timers <= s.audits.Keys
    ensures Expired(s, id).audits.Keys == s.audits.Keys
  {
  }

  /** Every request the relay knows of was issued by an event of the run. */
  lemma {:induction false} KnownWasIssued(events: seq<Event>, id: RequestId) returns (f: nat)
    requires id in Run(events).audits
    ensures Issues(events, f, id)
  {
    var past, e := events[..|events| - 1], events[|events| - 1];
    if id in Run(past).audits {
      f := KnownWasIssued(past, id);
      assert past[..f] == events[..f];
    } else {
      f := |past|;
      CounterCounts(past);
      RunKeeps(past);
      OnlyForwardIssues(Run(past), e, id);
    }
  }

  /** A second reply is attempted for exactly the requests whose send threw and that were settled afterwards. */
  lemma SecondReplyExactlyWhen(events: seq<Event>, id: RequestId)
    requires id in Run(events).audits
    ensures RefusedTo(Run(events), id) > 0 <==> id in Run(events).unsent && id !in Run(events).pending
  {
    RunKeeps(events);
  }

  /** Such a run: the send throws, the caller gets its error, and the timeout then answers again. */
  lemma ThrowingSendAnswersTwice(at: int)
    ensures var events := [Forward(at, false, true), TimerFires(RequestId(1, at))];
      RepliesTo(Run(events), RequestId(1, at)) == [500] && RefusedTo(Run(events), RequestId(1, at)) == 1
  {
    var id := RequestId(1, at);
    var first := [Forward(at, false, true)];
    var events := first + [TimerFires(id)];
    assert first[..0] == [] && events[..1] == first;
    assert events == [Forward(at, false, true), TimerFires(id)];
    assert Run(first) == Forwarded(INITIAL, at, false, true);
  }
}

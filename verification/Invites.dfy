/**
 Single-use invite links (codex_invites.py, `CodexInviteStore`). Every operation loads the invites, changes
 them under one lock and saves them, so each is one atomic step. Times are those the operation read from its
 clock, which need not be in lock order.
 */
module Invites {
  import opened Common

  type Token = string

  datatype Invite = Invite(
    name: string, createdAt: real, expiresAt: real, usedAt: Option<real>,
    deviceAuthId: Option<string>, userCode: Option<string>, interval: Option<real>,
    deviceStartedAt: Option<real>, lastPollAt: Option<real>)

  datatype Device = Device(deviceAuthId: string, userCode: string, interval: Option<real>)

  datatype Status = Used | Expired | Awaiting | Pending

  const DEVICE_CODE_TTL_S: real := 900.0
  const DEFAULT_INTERVAL_S: real := 5.0

  /** A time stamp that counts as present: Python takes a zero for absent. */
  predicate Stamped(t: Option<real>) { t.Some? && t.value != 0.0 }

  function IntervalOf(inv: Invite): real { if inv.interval.Some? then inv.interval.value else DEFAULT_INTERVAL_S }

  type State = map<Token, Invite>

  /** One operation of the store. */
  datatype Op =
    | Create(token: Token, slug: string, now: real, ttl: real)
    | Revoke(token: Token)
    | SetDevice(token: Token, device: Device, now: real)
    | ClearDevice(token: Token)
    | MarkUsed(token: Token, now: real)
    | Poll(token: Token, now: real)

  predicate Due(inv: Invite, now: real) { inv.lastPollAt.None? || now - inv.lastPollAt.value >= IntervalOf(inv) }

  function Step(s: State, op: Op): State {
    match op
    case Create(token, slug, now, ttl) =>
      (map t | t in s && (s[t].name != slug || Stamped(s[t].usedAt)) :: s[t])
        [token := Invite(slug, now, now + ttl, None, None, None, None, None, None)]
    case Revoke(token) => s - {token}
    case SetDevice(token, d, now) =>
      if token !in s then s else
        s[token := s[token].(deviceAuthId := Some(d.deviceAuthId), userCode := Some(d.userCode),
                             interval := Some(if d.interval.Some? then d.interval.value else DEFAULT_INTERVAL_S),
                             deviceStartedAt := Some(now), lastPollAt := None)]
    case ClearDevice(token) =>
      if token !in s then s else
        s[token := s[token].(deviceAuthId := None, userCode := None, interval := None,
                             deviceStartedAt := None, lastPollAt := None)]
    case MarkUsed(token, now) => if token !in s then s else s[token := s[token].(usedAt := Some(now))]
    case Poll(token, now) =>
      if token !in s || !Due(s[token], now) then s else s[token := s[token].(lastPollAt := Some(now))]
  }

  /** Does a poll go ahead. */
  predicate Granted(s: State, op: Op) { op.Poll? && op.token in s && Due(s[op.token], op.now) }

  class InviteStore {
    var invites: map<Token, Invite>

    constructor ()
      ensures invites == map[]
    {
      invites := map[];
    }

    /** `create`: the new invite displaces those of the same name that nobody has used. */
    method Create(token: Token, slug: string, now: real, ttl: real)
      modifies this
      ensures invites == Step(old(invites), Op.Create(token, slug, now, ttl))
    {
      var kept: map<Token, Invite> := map[];
      var unseen := invites.Keys;
      while unseen != {}
        invariant unseen <= invites.Keys && invites == old(invites)
        invariant kept ==
          map t | t in invites && t !in unseen && (invites[t].name != slug || Stamped(invites[t].usedAt)) :: invites[t]
        decreases |unseen|
      {
        var t :| t in unseen;
        unseen := unseen - {t};
        if !(invites[t].name == slug && !Stamped(invites[t].usedAt)) {
          kept := kept[t := invites[t]];
        }
      }
      invites := kept[token := Invite(slug, now, now + ttl, None, None, None, None, None, None)];
    }

    method Revoke(token: Token) returns (known: bool)
      modifies this
      ensures invites == Step(old(invites), Op.Revoke(token)) && known == (token in old(invites))
    {
      if token !in invites { return false; }
      invites := invites - {token};
      return true;
    }

    method SetDevice(token: Token, device: Device, now: real)
      modifies this
      ensures invites == Step(old(invites), Op.SetDevice(token, device, now))
    {
      if token in invites {
        var interval := if device.interval.Some? then device.interval.value else DEFAULT_INTERVAL_S;
        invites := invites[token := invites[token].(
          deviceAuthId := Some(device.deviceAuthId), userCode := Some(device.userCode),
          interval := Some(interval), deviceStartedAt := Some(now), lastPollAt := None)];
      }
    }

    method ClearDevice(token: Token)
      modifies this
      ensures invites == Step(old(invites), Op.ClearDevice(token))
    {
      if token in invites {
        invites := invites[token := invites[token].(deviceAuthId := None, userCode := None, interval := None,
          deviceStartedAt := None, lastPollAt := None)];
      }
    }

    method MarkUsed(token: Token, now: real)
      modifies this
      ensures invites == Step(old(invites), Op.MarkUsed(token, now))
    {
      if token in invites {
        invites := invites[token := invites[token].(usedAt := Some(now))];
      }
    }

    /** `due_for_poll`: stamps the time when it grants a poll. */
    method DueForPoll(token: Token, now: real) returns (granted: bool)
      modifies this
      ensures invites == Step(old(invites), Op.Poll(token, now))
      ensures granted == Granted(old(invites), Op.Poll(token, now))
    {
      if token !in invites { return false; }
      var inv := invites[token];
      granted := false;
      if inv.lastPollAt.None? || now - inv.lastPollAt.value >= IntervalOf(inv) {
        invites := invites[token := inv.(lastPollAt := Some(now))];
        granted := true;
      }
    }
  }

  /** `status_of`. */
  function StatusOf(inv: Invite, now: real): Status {
    if Stamped(inv.usedAt) then Used
    else if now > inv.expiresAt then Expired
    else if inv.deviceAuthId.Some? && inv.deviceAuthId.value != "" && Stamped(inv.deviceStartedAt)
            && now - inv.deviceStartedAt.value <= DEVICE_CODE_TTL_S then Awaiting
    else Pending
  }

  // ---- runs ----

  function Run(s: State, ops: seq<Op>): State {
    if ops == [] then s else Step(Run(s, ops[..|ops| - 1]), ops[|ops| - 1])
  }

  /** The clock does not read zero, which the store would take for an absent stamp. */
  ghost predicate Clocked(ops: seq<Op>) {
    forall i :: 0 <= i < |ops| && ops[i].MarkUsed? ==> ops[i].now != 0.0
  }

  ghost predicate OneUnusedPerName(s: State) {
    forall t, u :: t in s && u in s && t != u && s[t].name == s[u].name ==> Stamped(s[t].usedAt) || Stamped(s[u].usedAt)
  }

  lemma StepKeepsOne(s: State, op: Op)
    requires OneUnusedPerName(s) && (op.MarkUsed? ==> op.now != 0.0)
    ensures OneUnusedPerName(Step(s, op))
  {
    var s' := Step(s, op);
    forall t, u | t in s' && u in s' && t != u && s'[t].name == s'[u].name
      ensures Stamped(s'[t].usedAt) || Stamped(s'[u].usedAt)
    {
      if !op.Create? {
        assert t in s && u in s && s[t].name == s'[t].name && s[u].name == s'[u].name;
      }
    }
  }

  /** In every reachable state at most one unused invite exists per account name. */
  lemma {:induction false} OnePendingLink(ops: seq<Op>)
    requires Clocked(ops)
    ensures OneUnusedPerName(Run(map[], ops))
  {
    if ops == [] {
    } else {
      OnePendingLink(ops[..|ops| - 1]);
      StepKeepsOne(Run(map[], ops[..|ops| - 1]), ops[|ops| - 1]);
    }
  }

  /** A name always gets a new link, and after `create` that link is the only unused one for the name. */
  lemma CreateReplaces(s: State, token: Token, slug: string, now: real, ttl: real)
    ensures var s' := Step(s, Op.Create(token, slug, now, ttl));
      forall t :: t in s' && s'[t].name == slug && !Stamped(s'[t].usedAt) <==> t == token
  {
  }

  /** Neither revoked nor, against all odds, drawn again. */
  ghost predicate Undisturbed(token: Token, ops: seq<Op>) {
    forall i :: 0 <= i < |ops| ==> !((ops[i].Revoke? || ops[i].Create?) && ops[i].token == token)
  }

  lemma UsedStep(s: State, op: Op, token: Token)
    requires (op.MarkUsed? ==> op.now != 0.0) && Undisturbed(token, [op]) && token in s && Stamped(s[token].usedAt)
    ensures var s' := Step(s, op); token in s' && s'[token].name == s[token].name && Stamped(s'[token].usedAt)
  {
    assert [op][0] == op;
  }

  /** A used invite stays used, under its name, until it is revoked, whatever else happens. */
  lemma {:induction false} UsedIsAbsorbing(s: State, ops: seq<Op>, token: Token, now: real)
    requires Clocked(ops) && Undisturbed(token, ops) && token in s && Stamped(s[token].usedAt)
    ensures var s' := Run(s, ops); token in s' && s'[token].name == s[token].name && StatusOf(s'[token], now) == Used
  {
    if ops == [] {
    } else {
      UsedIsAbsorbing(s, ops[..|ops| - 1], token, now);
      UsedStep(Run(s, ops[..|ops| - 1]), ops[|ops| - 1], token);
    }
  }

  /** No device code is requested or dropped for the token, and the token is not drawn again. */
  ghost predicate SameSession(token: Token, ops: seq<Op>) {
    forall i :: 0 <= i < |ops| ==>
      !((ops[i].SetDevice? || ops[i].ClearDevice? || ops[i].Create?) && ops[i].token == token)
  }

  /** How many polls of the token were granted. */
  function Grants(s: State, ops: seq<Op>, token: Token): nat {
    if ops == [] then 0 else
      var before := ops[..|ops| - 1];
      var last := ops[|ops| - 1];
      Grants(s, before, token) + if last.token == token && Granted(Run(s, before), last) then 1 else 0
  }

  function Intervals(interval: real, n: nat): real { interval * n as real }

  lemma OneMoreInterval(interval: real, n: nat)
    ensures Intervals(interval, n + 1) == Intervals(interval, n) + interval
  {
  }

  /** The session of a token, if the invite still exists: its interval, and a last grant at `t` or later. */
  ghost predicate Polled(s: State, token: Token, interval: real, t: real) {
    token in s ==> s[token].lastPollAt.Some? && IntervalOf(s[token]) == interval && s[token].lastPollAt.value >= t
  }

  lemma PolledStep(s: State, op: Op, token: Token, interval: real, t: real)
    requires Polled(s, token, interval, t) && SameSession(token, [op])
    ensures Polled(Step(s, op), token, interval, if op.token == token && Granted(s, op) then t + interval else t)
  {
    assert [op][0] == op;
  }

  lemma {:induction false} SpacedSince(s: State, ops: seq<Op>, token: Token, first: real, interval: real)
    requires SameSession(token, ops) && Polled(s, token, interval, first)
    ensures Polled(Run(s, ops), token, interval, first + Intervals(interval, Grants(s, ops, token)))
  {
    if ops == [] {
    } else {
      var before, op := ops[..|ops| - 1], ops[|ops| - 1];
      SpacedSince(s, before, token, first, interval);
      PolledStep(Run(s, before), op, token, interval, first + Intervals(interval, Grants(s, before, token)));
      OneMoreInterval(interval, Grants(s, before, token));
    }
  }

  /**
   Within one device session the poll granted n grants after another one comes at least n intervals later, by
   the times the store stamps; no assumption on the clock is needed.
   */
  lemma PollsSpaced(s: State, ops: seq<Op>, first: Op, last: Op)
    requires Granted(s, first) && last.Poll? && last.token == first.token
    requires SameSession(first.token, ops) && Granted(Run(Step(s, first), ops), last)
    ensures last.now - first.now >= Intervals(IntervalOf(s[first.token]), Grants(Step(s, first), ops, first.token) + 1)
  {
    var s0 := Step(s, first);
    var interval := IntervalOf(s[first.token]);
    SpacedSince(s0, ops, first.token, first.now, interval);
    OneMoreInterval(interval, Grants(s0, ops, first.token));
  }

  /** In a new device session the first poll is granted, and for fifteen minutes the invite awaits the user. */
  lemma NewSession(s: State, token: Token, device: Device, t: real, now: real)
    requires token in s && t != 0.0
    ensures var s' := Step(s, SetDevice(token, device, t));
      && Granted(s', Poll(token, now))
      && (StatusOf(s'[token], now) == Awaiting <==>
            device.deviceAuthId != "" && !Stamped(s[token].usedAt) && now <= s[token].expiresAt && now <= t + 900.0)
  {
  }

  /** A new link is pending for exactly its time to live. */
  lemma NewLinkExpires(s: State, token: Token, slug: string, t: real, ttl: real, now: real)
    ensures var s' := Step(s, Op.Create(token, slug, t, ttl));
      token in s' && StatusOf(s'[token], now) == if now <= t + ttl then Pending else Expired
  {
  }

  /** The next poll after one at `t1` in a new session is granted once the device's own interval has passed, or 5 s. */
  lemma NextPollIff(s: State, token: Token, device: Device, t: real, t1: real, t2: real)
    requires token in s
    ensures var s' := Step(Step(s, SetDevice(token, device, t)), Poll(token, t1));
      Granted(s', Poll(token, t2)) <==> t2 - t1 >= if device.interval.Some? then device.interval.value else 5.0
  {
  }

  /** The interval by which polls of a session are spaced is the device's own, or five seconds. */
  lemma SessionInterval(s: State, token: Token, device: Device, t: real)
    requires token in s
    ensures var session := Step(s, SetDevice(token, device, t));
      && token in session && session[token].lastPollAt.None?
      && IntervalOf(session[token]) == if device.interval.Some? then device.interval.value else 5.0
  {
  }

  /** Marking an invite used makes it used, and revoking removes it. */
  lemma MarkedOrRevoked(s: State, token: Token, t: real, now: real)
    requires token in s && t != 0.0
    ensures var s' := Step(s, Op.MarkUsed(token, t)); token in s' && StatusOf(s'[token], now) == Used
    ensures token !in Step(s, Op.Revoke(token))
  {
  }

  /** Apart from `create`, an operation changes at most the invite of its token, and nothing if there is none. */
  lemma OnlyItsToken(s: State, op: Op, token: Token)
    requires !op.Create? && (token != op.token || op.token !in s)
    ensures token in Step(s, op) <==> token in s
    ensures token in s ==> Step(s, op)[token] == s[token]
  {
  }

  /** A stamp of zero is none. */
  lemma ZeroIsAbsent(inv: Invite, now: real)
    ensures StatusOf(inv.(usedAt := Some(0.0)), now) == StatusOf(inv.(usedAt := None), now)
    ensures StatusOf(inv.(deviceStartedAt := Some(0.0)), now) == StatusOf(inv.(deviceStartedAt := None), now)
  {
  }

  lemma NoDeviceStep(s: State, op: Op, token: Token)
    requires (token in s ==> s[token].deviceAuthId.None?) && !(op.SetDevice? && op.token == token)
    ensures token in Step(s, op) ==> Step(s, op)[token].deviceAuthId.None?
  {
  }

  /** After `clear_device` an invite awaits nothing until a new device code comes, whatever else happens. */
  lemma {:induction false} ClearedAwaitsNothing(s: State, ops: seq<Op>, token: Token, now: real)
    requires forall i :: 0 <= i < |ops| ==> !(ops[i].SetDevice? && ops[i].token == token)
    ensures var s' := Run(Step(s, ClearDevice(token)), ops); token in s' ==> StatusOf(s'[token], now) != Awaiting
    ensures var s' := Run(Step(s, ClearDevice(token)), ops); token in s' ==> s'[token].deviceAuthId.None?
  {
    if ops == [] {
    } else {
      ClearedAwaitsNothing(s, ops[..|ops| - 1], token, now);
      NoDeviceStep(Run(Step(s, ClearDevice(token)), ops[..|ops| - 1]), ops[|ops| - 1], token);
    }
  }
}

/** Filter.ShouldProcess of internal/messagefilter/filter.go. */
module MessageFilter {
  import opened Text
  import opened Dedupe
  import opened Search
  import opened Wrappers

  datatype Input = Input(eventId: string, clientMsgId: string, userId: string, channelId: string, text: string,
                         messageTs: string, subtype: string, isIm: bool, hidden: bool, userIsBot: bool, messageHasBot: bool)

  datatype Config = Config(allowedDm: set<string>, allowedChannels: set<string>, anyChannel: bool, requireMention: bool,
                           appUserId: string, ttl: int)

  datatype Reason =
    | Hidden | Bot | Self | Subtype(name: string)
    | DuplicateEvent | DuplicateClientMsg | DuplicateMessage
    | DmNotAllowed | Dm | ChannelNotAllowed | MentionRequired | BoundThread | Channel

  predicate Accepts(r: Reason) {
    r == Dm || r == BoundThread || r == Channel
  }

  /** One message, the three readings of the clock it may need, and whether its thread has a session. */
  datatype Delivery = Delivery(msg: Input, t1: int, t2: int, t3: int, bound: bool)

  predicate IgnoredSubtype(s: string) {
    s in {"message_deleted", "message_changed", "bot_message", "channel_join", "channel_leave", "group_join", "group_leave"}
  }

  function EventKey(msg: Input): string { "e:" + msg.eventId }
  function ClientKey(msg: Input): string { "c:" + msg.clientMsgId }
  function MessageKey(msg: Input): string { "m:" + msg.channelId + ":" + TrimSpace(msg.messageTs) }
  predicate HasEvent(msg: Input) { msg.eventId != "" }
  predicate HasClient(msg: Input) { msg.clientMsgId != "" }
  predicate HasMessage(msg: Input) { msg.channelId != "" && TrimSpace(msg.messageTs) != "" }

  predicate Contains(s: string, pat: string) {
    Find(s, pat) >= 0
  }

  predicate Mentions(text: string, userId: string) {
    var id := TrimSpace(userId);
    id != "" && (Contains(text, "<@" + id + ">") || Contains(text, "<@" + id + "|"))
  }

  // ---- the decision ----

  /** Whether a message is dropped before the duplicate check. */
  function Dropped(cfg: Config, msg: Input): Option<Reason> {
    if msg.hidden then Some(Hidden)
    else if msg.userIsBot || msg.messageHasBot then Some(Bot)
    else if msg.userId != "" && msg.userId == cfg.appUserId then Some(Self)
    else if TrimSpace(msg.subtype) != "" && IgnoredSubtype(TrimSpace(msg.subtype)) then Some(Subtype(TrimSpace(msg.subtype)))
    else None
  }

  /** The access rules, for a message that is no duplicate. */
  function Policy(cfg: Config, msg: Input, bound: bool): Reason {
    if msg.isIm then
      if msg.userId in cfg.allowedDm then Dm else DmNotAllowed
    else if !cfg.anyChannel && msg.channelId !in cfg.allowedChannels && !bound then ChannelNotAllowed
    else if cfg.requireMention && cfg.appUserId != "" && !Mentions(msg.text, cfg.appUserId) then MentionRequired
    else if bound then BoundThread
    else Channel
  }

  /** One look-up, made only if the message has that key. */
  function AfterIf(has: bool, m: map<string, int>, c: Call, ttl: int): map<string, int> {
    if has then After(m, c, ttl) else m
  }

  function Decide(cfg: Config, m: map<string, int>, d: Delivery): (map<string, int>, Reason) {
    var msg := d.msg;
    if Dropped(cfg, msg).Some? then (m, Dropped(cfg, msg).value)
    else
      var e, c, g := Call(EventKey(msg), d.t1), Call(ClientKey(msg), d.t2), Call(MessageKey(msg), d.t3);
      var m1 := AfterIf(HasEvent(msg), m, e, cfg.ttl);
      if HasEvent(msg) && Seen(m, e, cfg.ttl) then (m1, DuplicateEvent)
      else
        var m2 := AfterIf(HasClient(msg), m1, c, cfg.ttl);
        if HasClient(msg) && Seen(m1, c, cfg.ttl) then (m2, DuplicateClientMsg)
        else
          var m3 := AfterIf(HasMessage(msg), m2, g, cfg.ttl);
          if HasMessage(msg) && Seen(m2, g, cfg.ttl) then (m3, DuplicateMessage)
          else (m3, Policy(cfg, msg, d.bound))
  }

  class Filter {
    const cfg: Config
    const dedupe: Deduper

    constructor (cfg: Config)
      ensures this.cfg == cfg && fresh(dedupe) && dedupe.ttl == cfg.ttl && dedupe.m == map[]
    {
      this.cfg := cfg;
      dedupe := new Deduper(cfg.ttl);
    }

    method ShouldProcess(d: Delivery) returns (accept: bool, reason: Reason)
      requires dedupe.ttl == cfg.ttl
      modifies dedupe
      ensures (dedupe.m, reason) == Decide(cfg, old(dedupe.m), d)
      ensures accept == Accepts(reason)
    {
      var msg := d.msg;
      if msg.hidden {
        return false, Hidden;
      }
      if msg.userIsBot || msg.messageHasBot {
        return false, Bot;
      }
      if msg.userId != "" && msg.userId == cfg.appUserId {
        return false, Self;
      }
      var sub := TrimSpace(msg.subtype);
      if sub != "" && IgnoredSubtype(sub) {
        return false, Subtype(sub);
      }
      if msg.eventId != "" {
        var hit := dedupe.Look(Call(EventKey(msg), d.t1));
        if hit {
          return false, DuplicateEvent;
        }
      }
      if msg.clientMsgId != "" {
        var hit := dedupe.Look(Call(ClientKey(msg), d.t2));
        if hit {
          return false, DuplicateClientMsg;
        }
      }
      if msg.channelId != "" && TrimSpace(msg.messageTs) != "" {
        var hit := dedupe.Look(Call(MessageKey(msg), d.t3));
        if hit {
          return false, DuplicateMessage;
        }
      }
      reason := Admit(msg, d.bound);
      return Accepts(reason), reason;
    }

    /** The access rules in the order of the program. */
    method Admit(msg: Input, bound: bool) returns (reason: Reason)
      ensures reason == Policy(cfg, msg, bound)
    {
      if msg.isIm {
        if msg.userId !in cfg.allowedDm {
          return DmNotAllowed;
        }
        return Dm;
      }
      var unmentioned := cfg.requireMention && cfg.appUserId != "" && !Mentions(msg.text, cfg.appUserId);
      if !cfg.anyChannel && msg.channelId !in cfg.allowedChannels {
        if !bound {
          return ChannelNotAllowed;
        }
        if unmentioned {
          return MentionRequired;
        }
        return BoundThread;
      }
      if bound {
        if unmentioned {
          return MentionRequired;
        }
        return BoundThread;
      }
      if unmentioned {
        return MentionRequired;
      }
      return Channel;
    }
  }

  // ---- whole runs ----

  function Reasons(cfg: Config, m: map<string, int>, ds: seq<Delivery>): (rs: seq<Reason>)
    ensures |rs| == |ds|
    decreases |ds|
  {
    if ds == [] then [] else [Decide(cfg, m, ds[0]).1] + Reasons(cfg, Decide(cfg, m, ds[0]).0, ds[1..])
  }

  predicate Timely(ds: seq<Delivery>, last: int) {
    ds != [] ==> last <= ds[0].t1 <= ds[0].t2 <= ds[0].t3 && Timely(ds[1..], ds[0].t3)
  }

  /** A key that a message carries, with the time at which it is looked up. */
  predicate Carries(d: Delivery, c: Call) {
    || (HasEvent(d.msg) && c == Call(EventKey(d.msg), d.t1))
    || (HasClient(d.msg) && c == Call(ClientKey(d.msg), d.t2))
    || (HasMessage(d.msg) && c == Call(MessageKey(d.msg), d.t3))
  }

  lemma MaybeStays(has: bool, m: map<string, int>, r: Call, last: int, c: Call, ttl: int)
    requires Known(m, r, last, ttl) && last <= c.now
    ensures Known(AfterIf(has, m, c, ttl), r, c.now, ttl)
  {
    if has {
      KnownStays(m, r, last, c, ttl);
    }
  }

  lemma KnownLater(m: map<string, int>, r: Call, last: int, later: int, ttl: int)
    requires Known(m, r, last, ttl) && last <= later
    ensures Known(m, r, later, ttl)
  {
  }

  /** What is known stays known through a message, and an accepted message with the same key comes more than the time to live later. */
  lemma DecideKeeps(cfg: Config, m: map<string, int>, d: Delivery, r: Call, last: int)
    requires Known(m, r, last, cfg.ttl) && last <= d.t1 <= d.t2 <= d.t3
    ensures Known(Decide(cfg, m, d).0, r, d.t3, cfg.ttl)
    ensures Accepts(Decide(cfg, m, d).1) ==>
              forall c :: Carries(d, c) && c.key == r.key ==> c.now - r.now > cfg.ttl
  {
    var msg, ttl := d.msg, cfg.ttl;
    var e, c, g := Call(EventKey(msg), d.t1), Call(ClientKey(msg), d.t2), Call(MessageKey(msg), d.t3);
    var m1 := AfterIf(HasEvent(msg), m, e, ttl);
    var m2 := AfterIf(HasClient(msg), m1, c, ttl);
    KnownStays(m, r, last, e, ttl);
    MaybeStays(HasEvent(msg), m, r, last, e, ttl);
    KnownStays(m1, r, d.t1, c, ttl);
    MaybeStays(HasClient(msg), m1, r, d.t1, c, ttl);
    KnownStays(m2, r, d.t2, g, ttl);
    MaybeStays(HasMessage(msg), m2, r, d.t2, g, ttl);
    KnownLater(m1, r, d.t1, d.t3, ttl);
    KnownLater(m2, r, d.t2, d.t3, ttl);
    KnownLater(m, r, last, d.t3, ttl);
  }

  /** An accepted message has recorded all its keys. */
  lemma AcceptedRecords(cfg: Config, m: map<string, int>, d: Delivery, r: Call)
    requires Accepts(Decide(cfg, m, d).1) && Carries(d, r) && d.t1 <= d.t2 <= d.t3
    ensures Known(Decide(cfg, m, d).0, r, d.t3, cfg.ttl)
  {
    var msg, ttl := d.msg, cfg.ttl;
    var e, c, g := Call(EventKey(msg), d.t1), Call(ClientKey(msg), d.t2), Call(MessageKey(msg), d.t3);
    var m1 := AfterIf(HasEvent(msg), m, e, ttl);
    var m2 := AfterIf(HasClient(msg), m1, c, ttl);
    if HasEvent(msg) && r == e {
      RecordedIsKnown(m, e, ttl);
      MaybeStays(HasClient(msg), m1, r, d.t1, c, ttl);
      MaybeStays(HasMessage(msg), m2, r, d.t2, g, ttl);
    } else if HasClient(msg) && r == c {
      RecordedIsKnown(m1, c, ttl);
      MaybeStays(HasMessage(msg), m2, r, d.t2, g, ttl);
    } else {
      RecordedIsKnown(m2, g, ttl);
    }
  }

  lemma {:induction false} LaterIsApart(cfg: Config, m: map<string, int>, ds: seq<Delivery>, r: Call, last: int, j: nat, c: Call)
    requires Known(m, r, last, cfg.ttl) && Timely(ds, last) && j < |ds|
    requires Accepts(Reasons(cfg, m, ds)[j]) && Carries(ds[j], c) && c.key == r.key
    ensures c.now - r.now > cfg.ttl
    decreases j
  {
    var m', rs := Decide(cfg, m, ds[0]).0, Reasons(cfg, m, ds);
    DecideKeeps(cfg, m, ds[0], r, last);
    if j > 0 {
      assert rs[j] == Reasons(cfg, m', ds[1..])[j - 1] && ds[1..][j - 1] == ds[j];
      LaterIsApart(cfg, m', ds[1..], r, ds[0].t3, j - 1, c);
    }
  }

  /** Over any run, two accepted messages that share a key are looked up more than the time to live apart. */
  lemma {:induction false} AcceptedApart(cfg: Config, m: map<string, int>, ds: seq<Delivery>, last: int, i: nat, j: nat, r: Call, c: Call)
    requires Timely(ds, last) && i < j < |ds|
    requires Accepts(Reasons(cfg, m, ds)[i]) && Accepts(Reasons(cfg, m, ds)[j])
    requires Carries(ds[i], r) && Carries(ds[j], c) && r.key == c.key
    ensures c.now - r.now > cfg.ttl
    decreases i
  {
    var m', rs := Decide(cfg, m, ds[0]).0, Reasons(cfg, m, ds);
    assert rs[j] == Reasons(cfg, m', ds[1..])[j - 1] && ds[1..][j - 1] == ds[j];
    if i == 0 {
      AcceptedRecords(cfg, m, ds[0], r);
      LaterIsApart(cfg, m', ds[1..], r, ds[0].t3, j - 1, c);
    } else {
      assert rs[i] == Reasons(cfg, m', ds[1..])[i - 1] && ds[1..][i - 1] == ds[i];
      AcceptedApart(cfg, m', ds[1..], ds[0].t3, i - 1, j - 1, r, c);
    }
  }

  /** The same, in terms of the messages: equal event ids, equal client ids, or the same channel and trimmed time stamp. */
  lemma RepeatsAreApart(cfg: Config, ds: seq<Delivery>, last: int, i: nat, j: nat)
    requires Timely(ds, last) && i < j < |ds|
    requires Accepts(Reasons(cfg, map[], ds)[i]) && Accepts(Reasons(cfg, map[], ds)[j])
    ensures var a, b := ds[i].msg, ds[j].msg;
            && (HasEvent(a) && a.eventId == b.eventId ==> ds[j].t1 - ds[i].t1 > cfg.ttl)
            && (HasClient(a) && a.clientMsgId == b.clientMsgId ==> ds[j].t2 - ds[i].t2 > cfg.ttl)
            && (HasMessage(a) && a.channelId == b.channelId && TrimSpace(a.messageTs) == TrimSpace(b.messageTs) ==>
                  ds[j].t3 - ds[i].t3 > cfg.ttl)
  {
    var a, b := ds[i].msg, ds[j].msg;
    if HasEvent(a) && a.eventId == b.eventId {
      AcceptedApart(cfg, map[], ds, last, i, j, Call(EventKey(a), ds[i].t1), Call(EventKey(b), ds[j].t1));
    }
    if HasClient(a) && a.clientMsgId == b.clientMsgId {
      AcceptedApart(cfg, map[], ds, last, i, j, Call(ClientKey(a), ds[i].t2), Call(ClientKey(b), ds[j].t2));
    }
    if HasMessage(a) && a.channelId == b.channelId && TrimSpace(a.messageTs) == TrimSpace(b.messageTs) {
      AcceptedApart(cfg, map[], ds, last, i, j, Call(MessageKey(a), ds[i].t3), Call(MessageKey(b), ds[j].t3));
    }
  }
}

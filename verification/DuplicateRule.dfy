/** When a message counts as a repeat, over every run of the filter, and what decides about the others. */
module DuplicateRule {
  import opened Text
  import opened Search
  import opened Wrappers
  import opened Dedupe
  import opened MessageFilter

  // ---- when two keys are the same ----

  lemma IdKeys(a: Input, b: Input)
    ensures EventKey(a) == EventKey(b) <==> a.eventId == b.eventId
    ensures ClientKey(a) == ClientKey(b) <==> a.clientMsgId == b.clientMsgId
    ensures EventKey(a) != ClientKey(b) && EventKey(a) != MessageKey(b) && ClientKey(a) != MessageKey(b)
  {
    Behind("e:", a.eventId);
    Behind("e:", b.eventId);
    Behind("c:", a.clientMsgId);
    Behind("c:", b.clientMsgId);
    assert EventKey(a)[0] == 'e' && ClientKey(b)[0] == 'c' && MessageKey(b)[0] == 'm' && ClientKey(a)[0] == 'c';
  }

  lemma Behind(p: string, s: string)
    ensures (p + s)[|p|..] == s
  {
  }

  function Stamp(a: Input): string {
    TrimSpace(a.messageTs)
  }

  /** One channel id goes on, after a colon, where the other one's time stamp begins. */
  ghost predicate Shifted(a: Input, b: Input) {
    exists x :: ShiftedBy(a, b, x)
  }

  predicate ShiftedBy(a: Input, b: Input, x: string) {
    b.channelId == a.channelId + ":" + x && Stamp(a) == x + ":" + Stamp(b)
  }

  /** The same channel and trimmed time stamp, or a colon in a channel id that makes it look so. */
  ghost predicate SamePost(a: Input, b: Input) {
    (a.channelId == b.channelId && Stamp(a) == Stamp(b)) || Shifted(a, b) || Shifted(b, a)
  }

  lemma SplitColon(c: string, s: string, d: string, t: string)
    requires c + ":" + s == d + ":" + t && |c| < |d|
    ensures d == c + ":" + d[|c| + 1..] && s == d[|c| + 1..] + ":" + t
  {
    var w, x := c + ":" + s, d[|c| + 1..];
    assert w[..|d|] == d && w[..|c|] == c && w[|c|] == ':';
    assert d == d[..|c|] + [d[|c|]] + x;
    assert s == w[|c| + 1..] && w[|c| + 1..] == x + ":" + t;
  }

  /** Exactly when two messages look up the same key. */
  lemma MessageKeyEqualIff(a: Input, b: Input)
    ensures MessageKey(a) == MessageKey(b) <==> SamePost(a, b)
  {
    var c, s, d, t := a.channelId, Stamp(a), b.channelId, Stamp(b);
    if MessageKey(a) == MessageKey(b) {
      KeyTail(a);
      KeyTail(b);
      if |c| < |d| {
        SplitColon(c, s, d, t);
        assert ShiftedBy(a, b, d[|c| + 1..]);
      } else if |d| < |c| {
        SplitColon(d, t, c, s);
        assert ShiftedBy(b, a, c[|d| + 1..]);
      } else {
        SameCut(c, s, d, t);
      }
    }
    if x :| ShiftedBy(a, b, x) {
      ShiftedKey(a, b, x);
    }
    if x :| ShiftedBy(b, a, x) {
      ShiftedKey(b, a, x);
    }
  }

  lemma KeyTail(a: Input)
    ensures MessageKey(a)[2..] == a.channelId + ":" + Stamp(a)
  {
    Behind("m:", a.channelId + ":" + Stamp(a));
    assert MessageKey(a) == "m:" + (a.channelId + ":" + Stamp(a));
  }

  lemma SameCut(c: string, s: string, d: string, t: string)
    requires c + ":" + s == d + ":" + t && |c| == |d|
    ensures c == d && s == t
  {
    var w := c + ":" + s;
    assert w[..|c|] == c && w[..|d|] == d && w[|c| + 1..] == s && w[|d| + 1..] == t;
  }

  lemma ShiftedKey(a: Input, b: Input, x: string)
    requires ShiftedBy(a, b, x)
    ensures MessageKey(a) == MessageKey(b)
  {
    assert a.channelId + ":" + (x + ":" + Stamp(b)) == a.channelId + ":" + x + ":" + Stamp(b);
  }

  /** Without colons in the channel ids, the same key means the same channel and trimmed time stamp. */
  lemma ColonFreeKeys(a: Input, b: Input)
    requires ':' !in a.channelId && ':' !in b.channelId
    ensures SamePost(a, b) <==> a.channelId == b.channelId && Stamp(a) == Stamp(b)
  {
    forall x ensures !ShiftedBy(a, b, x) && !ShiftedBy(b, a, x) {
      ShiftHasColon(a, b, x);
      ShiftHasColon(b, a, x);
    }
  }

  lemma ShiftHasColon(a: Input, b: Input, x: string)
    ensures ShiftedBy(a, b, x) ==> ':' in b.channelId
  {
    if ShiftedBy(a, b, x) {
      assert b.channelId[|a.channelId|] == ':';
    }
  }

  // ---- what the filter has recorded ----

  predicate EventHit(r: Reason) { r == DuplicateEvent }
  predicate ClientHit(r: Reason) { r == DuplicateClientMsg }
  predicate PostHit(r: Reason) { r == DuplicateMessage }

  predicate Passes(cfg: Config, d: Delivery) {
    Dropped(cfg, d.msg).None?
  }

  /** The message's event id was recorded: it was looked up and was new. */
  predicate EventNoted(cfg: Config, d: Delivery, r: Reason) {
    Passes(cfg, d) && HasEvent(d.msg) && !EventHit(r)
  }

  predicate ClientNoted(cfg: Config, d: Delivery, r: Reason) {
    Passes(cfg, d) && HasClient(d.msg) && !EventHit(r) && !ClientHit(r)
  }

  predicate PostNoted(cfg: Config, d: Delivery, r: Reason) {
    Passes(cfg, d) && HasMessage(d.msg) && !EventHit(r) && !ClientHit(r) && !PostHit(r)
  }

  function NoteIf(c: bool, r: Call): seq<Call> {
    if c then [r] else []
  }

  /** The recordings one message leaves, given what was decided about it. */
  function Notes(cfg: Config, d: Delivery, r: Reason): seq<Call> {
    NoteIf(EventNoted(cfg, d, r), Call(EventKey(d.msg), d.t1))
    + NoteIf(ClientNoted(cfg, d, r), Call(ClientKey(d.msg), d.t2))
    + NoteIf(PostNoted(cfg, d, r), Call(MessageKey(d.msg), d.t3))
  }

  /** The map after the first `j` messages, from the empty one. */
  function MapAfter(cfg: Config, ds: seq<Delivery>, j: nat): map<string, int>
    requires j <= |ds|
  {
    if j == 0 then map[] else Decide(cfg, MapAfter(cfg, ds, j - 1), ds[j - 1]).0
  }

  function ReasonAt(cfg: Config, ds: seq<Delivery>, j: nat): Reason
    requires j < |ds|
  {
    Decide(cfg, MapAfter(cfg, ds, j), ds[j]).1
  }

  function NotesAt(cfg: Config, ds: seq<Delivery>, i: nat): seq<Call>
    requires i < |ds|
  {
    Notes(cfg, ds[i], ReasonAt(cfg, ds, i))
  }

  function NotesOf(cfg: Config, ds: seq<Delivery>): int -> seq<Call> {
    i => if 0 <= i < |ds| then NotesAt(cfg, ds, i) else []
  }

  function Concatenated<T>(f: int -> seq<T>, j: nat): seq<T> {
    if j == 0 then [] else Concatenated(f, j - 1) + f(j - 1)
  }

  /** All recordings the first `j` messages have left. */
  function AllNotes(cfg: Config, ds: seq<Delivery>, j: nat): seq<Call> {
    Concatenated(NotesOf(cfg, ds), j)
  }

  lemma {:induction false} ReasonsFrom(cfg: Config, ds: seq<Delivery>, i: nat, j: nat)
    requires i <= j < |ds|
    ensures Reasons(cfg, MapAfter(cfg, ds, i), ds[i..])[j - i] == ReasonAt(cfg, ds, j)
    decreases j - i
  {
    var rest := ds[i..];
    if i < j {
      assert rest[1..] == ds[i + 1..] && rest[0] == ds[i];
      ReasonsFrom(cfg, ds, i + 1, j);
    }
  }

  lemma ReasonsAt(cfg: Config, ds: seq<Delivery>, j: nat)
    requires j < |ds|
    ensures Reasons(cfg, map[], ds)[j] == ReasonAt(cfg, ds, j)
  {
    assert ds[0..] == ds;
    ReasonsFrom(cfg, ds, 0, j);
  }

  // ---- one message against the recordings ----

  lemma RecentMore(h: seq<Call>, r: Call, c: Call, ttl: int)
    requires r.key != c.key
    ensures Recent(h + [r], c, ttl) <==> Recent(h, c, ttl)
  {
    var g := h + [r];
    if Recent(h, c, ttl) {
      var i :| 0 <= i < |h| && h[i].key == c.key && c.now - h[i].now <= ttl;
      assert g[i] == h[i];
    }
  }

  /** One look-up, made only if the message has that key. */
  lemma LookIf(has: bool, m: map<string, int>, h: seq<Call>, last: int, c: Call, ttl: int)
    requires Stands(m, h, last, ttl) && last <= c.now
    ensures has ==> (Seen(m, c, ttl) <==> Recent(h, c, ttl))
    ensures Stands(AfterIf(has, m, c, ttl), h + NoteIf(has && !Recent(h, c, ttl), c), c.now, ttl)
  {
    assert h + [] == h;
    if has {
      LookAgrees(m, h, last, c, ttl);
    } else {
      StandsLater(m, h, last, c.now, ttl);
    }
  }

  lemma StandsLater(m: map<string, int>, h: seq<Call>, last: int, later: int, ttl: int)
    requires Stands(m, h, last, ttl) && last <= later
    ensures Stands(m, h, later, ttl)
  {
  }

  /** The verdict on one message, read off the recordings. */
  function Verdict(cfg: Config, h: seq<Call>, d: Delivery): Reason {
    var msg := d.msg;
    if Dropped(cfg, msg).Some? then Dropped(cfg, msg).value
    else if HasEvent(msg) && Recent(h, Call(EventKey(msg), d.t1), cfg.ttl) then DuplicateEvent
    else if HasClient(msg) && Recent(h, Call(ClientKey(msg), d.t2), cfg.ttl) then DuplicateClientMsg
    else if HasMessage(msg) && Recent(h, Call(MessageKey(msg), d.t3), cfg.ttl) then DuplicateMessage
    else Policy(cfg, msg, d.bound)
  }

  lemma NeitherIsDuplicate(cfg: Config, msg: Input, bound: bool)
    ensures var p := Policy(cfg, msg, bound); !EventHit(p) && !ClientHit(p) && !PostHit(p)
    ensures Dropped(cfg, msg).Some? ==>
              var r := Dropped(cfg, msg).value; !EventHit(r) && !ClientHit(r) && !PostHit(r) && !Accepts(r)
  {
  }

  lemma DecideStands(cfg: Config, m: map<string, int>, h: seq<Call>, last: int, d: Delivery)
    requires Stands(m, h, last, cfg.ttl) && last <= d.t1 <= d.t2 <= d.t3
    ensures Decide(cfg, m, d).1 == Verdict(cfg, h, d)
    ensures Stands(Decide(cfg, m, d).0, h + Notes(cfg, d, Decide(cfg, m, d).1), d.t3, cfg.ttl)
  {
    var msg, ttl := d.msg, cfg.ttl;
    var e, c, g := Call(EventKey(msg), d.t1), Call(ClientKey(msg), d.t2), Call(MessageKey(msg), d.t3);
    NeitherIsDuplicate(cfg, msg, d.bound);
    IdKeys(msg, msg);
    if !Passes(cfg, d) {
      assert h + Notes(cfg, d, Decide(cfg, m, d).1) == h;
      StandsLater(m, h, last, d.t3, ttl);
    } else {
      LookIf(HasEvent(msg), m, h, last, e, ttl);
      if HasEvent(msg) && Recent(h, e, ttl) {
        assert h + Notes(cfg, d, DuplicateEvent) == h + [];
        StandsLater(AfterIf(true, m, e, ttl), h + [], d.t1, d.t3, ttl);
      } else {
        EventPassed(cfg, m, h, d);
      }
    }
  }

  /** The client id and the post, once the event id was new. */
  lemma EventPassed(cfg: Config, m: map<string, int>, h: seq<Call>, d: Delivery)
    requires Passes(cfg, d) && d.t1 <= d.t2 <= d.t3
    requires var e := Call(EventKey(d.msg), d.t1);
             && !(HasEvent(d.msg) && (Seen(m, e, cfg.ttl) || Recent(h, e, cfg.ttl)))
             && Stands(AfterIf(HasEvent(d.msg), m, e, cfg.ttl), h + NoteIf(HasEvent(d.msg), e), d.t1, cfg.ttl)
    ensures Decide(cfg, m, d).1 == Verdict(cfg, h, d)
    ensures Stands(Decide(cfg, m, d).0, h + Notes(cfg, d, Decide(cfg, m, d).1), d.t3, cfg.ttl)
  {
    var msg, ttl := d.msg, cfg.ttl;
    var e, c := Call(EventKey(msg), d.t1), Call(ClientKey(msg), d.t2);
    var m1, h1 := AfterIf(HasEvent(msg), m, e, ttl), h + NoteIf(HasEvent(msg), e);
    IdKeys(msg, msg);
    RecentPast(h, e, c, HasEvent(msg), ttl);
    LookIf(HasClient(msg), m1, h1, d.t1, c, ttl);
    if HasClient(msg) && Recent(h, c, ttl) {
      ClientRefused(cfg, m, h, d);
      StandsLater(AfterIf(true, m1, c, ttl), h1 + [], d.t2, d.t3, ttl);
    } else {
      ClientPassed(cfg, m, h, d, m1, h1);
    }
  }

  lemma RecentPast(h: seq<Call>, e: Call, c: Call, has: bool, ttl: int)
    requires e.key != c.key
    ensures Recent(h + NoteIf(has, e), c, ttl) <==> Recent(h, c, ttl)
  {
    assert h + [] == h;
    RecentMore(h, e, c, ttl);
  }

  /** A new event id with a client id that is a repeat. */
  lemma ClientRefused(cfg: Config, m: map<string, int>, h: seq<Call>, d: Delivery)
    requires Passes(cfg, d) && HasClient(d.msg)
    requires var e, c := Call(EventKey(d.msg), d.t1), Call(ClientKey(d.msg), d.t2);
             && !(HasEvent(d.msg) && Seen(m, e, cfg.ttl)) && Seen(AfterIf(HasEvent(d.msg), m, e, cfg.ttl), c, cfg.ttl)
    ensures var e, c := Call(EventKey(d.msg), d.t1), Call(ClientKey(d.msg), d.t2);
            Decide(cfg, m, d) == (After(AfterIf(HasEvent(d.msg), m, e, cfg.ttl), c, cfg.ttl), DuplicateClientMsg)
    ensures h + Notes(cfg, d, DuplicateClientMsg) == h + NoteIf(HasEvent(d.msg), Call(EventKey(d.msg), d.t1)) + []
  {
  }

  lemma ClientPassed(cfg: Config, m: map<string, int>, h: seq<Call>, d: Delivery, m1: map<string, int>, h1: seq<Call>)
    requires Passes(cfg, d) && d.t2 <= d.t3
    requires var e := Call(EventKey(d.msg), d.t1);
             && !(HasEvent(d.msg) && (Seen(m, e, cfg.ttl) || Recent(h, e, cfg.ttl)))
             && m1 == AfterIf(HasEvent(d.msg), m, e, cfg.ttl) && h1 == h + NoteIf(HasEvent(d.msg), e)
    requires var c := Call(ClientKey(d.msg), d.t2);
             && !(HasClient(d.msg) && (Seen(m1, c, cfg.ttl) || Recent(h, c, cfg.ttl)))
             && Stands(AfterIf(HasClient(d.msg), m1, c, cfg.ttl), h1 + NoteIf(HasClient(d.msg), c), d.t2, cfg.ttl)
    ensures Decide(cfg, m, d).1 == Verdict(cfg, h, d)
    ensures Stands(Decide(cfg, m, d).0, h + Notes(cfg, d, Decide(cfg, m, d).1), d.t3, cfg.ttl)
  {
    var msg, ttl := d.msg, cfg.ttl;
    var e, c, g := Call(EventKey(msg), d.t1), Call(ClientKey(msg), d.t2), Call(MessageKey(msg), d.t3);
    var m2, h2 := AfterIf(HasClient(msg), m1, c, ttl), h1 + NoteIf(HasClient(msg), c);
    IdKeys(msg, msg);
    RecentThree(h, e, c, g, HasEvent(msg), HasClient(msg), ttl);
    LookIf(HasMessage(msg), m2, h2, d.t2, g, ttl);
    PostDecides(cfg, m, d, m2);
    NotesInOrder(cfg, d, h, HasMessage(msg) && Recent(h, g, ttl));
    NeitherIsDuplicate(cfg, msg, d.bound);
  }

  /** Recordings under other keys do not count. */
  lemma RecentThree(h: seq<Call>, e: Call, c: Call, g: Call, hasE: bool, hasC: bool, ttl: int)
    requires e.key != g.key && c.key != g.key
    ensures Recent(h + NoteIf(hasE, e) + NoteIf(hasC, c), g, ttl) <==> Recent(h, g, ttl)
  {
    var h1 := h + NoteIf(hasE, e);
    assert h + [] == h && h1 + [] == h1;
    RecentMore(h, e, g, ttl);
    RecentMore(h1, c, g, ttl);
  }

  /** The decision once both ids were new. */
  lemma PostDecides(cfg: Config, m: map<string, int>, d: Delivery, m2: map<string, int>)
    requires Passes(cfg, d)
    requires var e, c := Call(EventKey(d.msg), d.t1), Call(ClientKey(d.msg), d.t2);
             var m1 := AfterIf(HasEvent(d.msg), m, e, cfg.ttl);
             && !(HasEvent(d.msg) && Seen(m, e, cfg.ttl)) && !(HasClient(d.msg) && Seen(m1, c, cfg.ttl))
             && m2 == AfterIf(HasClient(d.msg), m1, c, cfg.ttl)
    ensures var g := Call(MessageKey(d.msg), d.t3);
            Decide(cfg, m, d) == (AfterIf(HasMessage(d.msg), m2, g, cfg.ttl),
                                  if HasMessage(d.msg) && Seen(m2, g, cfg.ttl) then DuplicateMessage else Policy(cfg, d.msg, d.bound))
  {
  }

  lemma NotesInOrder(cfg: Config, d: Delivery, h: seq<Call>, hit: bool)
    requires Passes(cfg, d)
    ensures var r := if hit then DuplicateMessage else Policy(cfg, d.msg, d.bound);
            h + Notes(cfg, d, r) ==
            h + NoteIf(HasEvent(d.msg), Call(EventKey(d.msg), d.t1)) + NoteIf(HasClient(d.msg), Call(ClientKey(d.msg), d.t2))
            + NoteIf(HasMessage(d.msg) && !hit, Call(MessageKey(d.msg), d.t3))
  {
    NeitherIsDuplicate(cfg, d.msg, d.bound);
    Four(h, NoteIf(HasEvent(d.msg), Call(EventKey(d.msg), d.t1)), NoteIf(HasClient(d.msg), Call(ClientKey(d.msg), d.t2)),
         NoteIf(HasMessage(d.msg) && !hit, Call(MessageKey(d.msg), d.t3)));
  }

  lemma Four(a: seq<Call>, b: seq<Call>, c: seq<Call>, d: seq<Call>)
    ensures a + (b + c + d) == a + b + c + d
  {
  }

  // ---- over a whole run ----

  lemma {:induction false} TimelyEach(ds: seq<Delivery>, last: int, i: nat)
    requires Timely(ds, last) && i < |ds|
    ensures ds[i].t1 <= ds[i].t2 <= ds[i].t3 && (if i == 0 then last else ds[i - 1].t3) <= ds[i].t1
    decreases i
  {
    if i > 0 {
      TimelyEach(ds[1..], ds[0].t3, i - 1);
    }
  }

  function LastTime(ds: seq<Delivery>, j: nat, last: int): int
    requires j <= |ds|
  {
    if j == 0 then last else ds[j - 1].t3
  }

  lemma {:induction false} RunStands(cfg: Config, ds: seq<Delivery>, last: int, j: nat)
    requires Timely(ds, last) && j <= |ds|
    ensures Stands(MapAfter(cfg, ds, j), AllNotes(cfg, ds, j), LastTime(ds, j, last), cfg.ttl)
    decreases j
  {
    if j > 0 {
      RunStands(cfg, ds, last, j - 1);
      TimelyEach(ds, last, j - 1);
      StandsNext(cfg, ds, LastTime(ds, j - 1, last), j - 1);
    }
  }

  lemma StandsNext(cfg: Config, ds: seq<Delivery>, last: int, j: nat)
    requires j < |ds| && last <= ds[j].t1 <= ds[j].t2 <= ds[j].t3
    requires Stands(MapAfter(cfg, ds, j), AllNotes(cfg, ds, j), last, cfg.ttl)
    ensures Stands(MapAfter(cfg, ds, j + 1), AllNotes(cfg, ds, j + 1), ds[j].t3, cfg.ttl)
  {
    DecideStands(cfg, MapAfter(cfg, ds, j), AllNotes(cfg, ds, j), last, ds[j]);
    OneMore(cfg, ds, j);
  }

  lemma OneMore(cfg: Config, ds: seq<Delivery>, j: nat)
    requires j < |ds|
    ensures MapAfter(cfg, ds, j + 1) == Decide(cfg, MapAfter(cfg, ds, j), ds[j]).0
    ensures AllNotes(cfg, ds, j + 1) == AllNotes(cfg, ds, j) + Notes(cfg, ds[j], Decide(cfg, MapAfter(cfg, ds, j), ds[j]).1)
  {
    assert NotesOf(cfg, ds)(j) == NotesAt(cfg, ds, j);
  }

  lemma {:induction false} InOne<T>(f: int -> seq<T>, j: nat, x: T)
    ensures x in Concatenated(f, j) <==> exists i :: 0 <= i < j && x in f(i)
  {
    if j > 0 {
      InOne(f, j - 1, x);
    }
  }

  /** An earlier message recorded this key within the time to live. */
  ghost predicate NotedBefore(cfg: Config, ds: seq<Delivery>, j: nat, c: Call)
    requires j <= |ds|
  {
    exists i, r :: 0 <= i < j && r in NotesOf(cfg, ds)(i) && r.key == c.key && c.now - r.now <= cfg.ttl
  }

  lemma RecentIff(h: seq<Call>, c: Call, ttl: int)
    ensures Recent(h, c, ttl) <==> exists r :: r in h && r.key == c.key && c.now - r.now <= ttl
  {
    if Recent(h, c, ttl) {
      var k :| 0 <= k < |h| && h[k].key == c.key && c.now - h[k].now <= ttl;
      assert h[k] in h;
    }
  }

  lemma RecentIsNoted(cfg: Config, ds: seq<Delivery>, j: nat, c: Call)
    requires j <= |ds|
    ensures Recent(AllNotes(cfg, ds, j), c, cfg.ttl) <==> NotedBefore(cfg, ds, j, c)
  {
    var h := AllNotes(cfg, ds, j);
    RecentIff(h, c, cfg.ttl);
    forall r ensures r in h <==> exists i :: 0 <= i < j && r in NotesOf(cfg, ds)(i) {
      InOne(NotesOf(cfg, ds), j, r);
    }
  }

  lemma NotesAre(cfg: Config, d: Delivery, s: Reason, r: Call)
    ensures r in Notes(cfg, d, s) <==>
            || (EventNoted(cfg, d, s) && r == Call(EventKey(d.msg), d.t1))
            || (ClientNoted(cfg, d, s) && r == Call(ClientKey(d.msg), d.t2))
            || (PostNoted(cfg, d, s) && r == Call(MessageKey(d.msg), d.t3))
  {
  }

  // ---- main results ----

  /** An earlier message with this event id was let in to be recorded, no longer ago than the time to live. */
  ghost predicate EventRepeats(cfg: Config, ds: seq<Delivery>, j: nat)
    requires j < |ds|
  {
    exists i :: 0 <= i < j && EventNoted(cfg, ds[i], ReasonAt(cfg, ds, i))
                && ds[i].msg.eventId == ds[j].msg.eventId && ds[j].t1 - ds[i].t1 <= cfg.ttl
  }

  ghost predicate ClientRepeats(cfg: Config, ds: seq<Delivery>, j: nat)
    requires j < |ds|
  {
    exists i :: 0 <= i < j && ClientNoted(cfg, ds[i], ReasonAt(cfg, ds, i))
                && ds[i].msg.clientMsgId == ds[j].msg.clientMsgId && ds[j].t2 - ds[i].t2 <= cfg.ttl
  }

  ghost predicate PostRepeats(cfg: Config, ds: seq<Delivery>, j: nat)
    requires j < |ds|
  {
    exists i :: 0 <= i < j && PostNoted(cfg, ds[i], ReasonAt(cfg, ds, i))
                && SamePost(ds[i].msg, ds[j].msg) && ds[j].t3 - ds[i].t3 <= cfg.ttl
  }

  lemma EventNoteIs(cfg: Config, ds: seq<Delivery>, i: nat, j: nat, r: Call)
    requires i < |ds| && j < |ds|
    ensures r in NotesOf(cfg, ds)(i) && r.key == EventKey(ds[j].msg) <==>
            EventNoted(cfg, ds[i], ReasonAt(cfg, ds, i)) && r == Call(EventKey(ds[i].msg), ds[i].t1)
            && ds[i].msg.eventId == ds[j].msg.eventId
  {
    NotesAre(cfg, ds[i], ReasonAt(cfg, ds, i), r);
    IdKeys(ds[i].msg, ds[j].msg);
    IdKeys(ds[j].msg, ds[i].msg);
  }

  lemma EventKeyNoted(cfg: Config, ds: seq<Delivery>, j: nat)
    requires j < |ds|
    ensures NotedBefore(cfg, ds, j, Call(EventKey(ds[j].msg), ds[j].t1)) <==> EventRepeats(cfg, ds, j)
  {
    var c := Call(EventKey(ds[j].msg), ds[j].t1);
    if NotedBefore(cfg, ds, j, c) {
      var i, r :| 0 <= i < j && r in NotesOf(cfg, ds)(i) && r.key == c.key && c.now - r.now <= cfg.ttl;
      EventNoteIs(cfg, ds, i, j, r);
    }
    if EventRepeats(cfg, ds, j) {
      var i :| 0 <= i < j && EventNoted(cfg, ds[i], ReasonAt(cfg, ds, i))
               && ds[i].msg.eventId == ds[j].msg.eventId && ds[j].t1 - ds[i].t1 <= cfg.ttl;
      EventNoteIs(cfg, ds, i, j, Call(EventKey(ds[i].msg), ds[i].t1));
    }
  }

  lemma ClientNoteIs(cfg: Config, ds: seq<Delivery>, i: nat, j: nat, r: Call)
    requires i < |ds| && j < |ds|
    ensures r in NotesOf(cfg, ds)(i) && r.key == ClientKey(ds[j].msg) <==>
            ClientNoted(cfg, ds[i], ReasonAt(cfg, ds, i)) && r == Call(ClientKey(ds[i].msg), ds[i].t2)
            && ds[i].msg.clientMsgId == ds[j].msg.clientMsgId
  {
    NotesAre(cfg, ds[i], ReasonAt(cfg, ds, i), r);
    IdKeys(ds[i].msg, ds[j].msg);
    IdKeys(ds[j].msg, ds[i].msg);
  }

  lemma ClientKeyNoted(cfg: Config, ds: seq<Delivery>, j: nat)
    requires j < |ds|
    ensures NotedBefore(cfg, ds, j, Call(ClientKey(ds[j].msg), ds[j].t2)) <==> ClientRepeats(cfg, ds, j)
  {
    var c := Call(ClientKey(ds[j].msg), ds[j].t2);
    if NotedBefore(cfg, ds, j, c) {
      var i, r :| 0 <= i < j && r in NotesOf(cfg, ds)(i) && r.key == c.key && c.now - r.now <= cfg.ttl;
      ClientNoteIs(cfg, ds, i, j, r);
    }
    if ClientRepeats(cfg, ds, j) {
      var i :| 0 <= i < j && ClientNoted(cfg, ds[i], ReasonAt(cfg, ds, i))
               && ds[i].msg.clientMsgId == ds[j].msg.clientMsgId && ds[j].t2 - ds[i].t2 <= cfg.ttl;
      ClientNoteIs(cfg, ds, i, j, Call(ClientKey(ds[i].msg), ds[i].t2));
    }
  }

  lemma PostNoteIs(cfg: Config, ds: seq<Delivery>, i: nat, j: nat, r: Call)
    requires i < |ds| && j < |ds|
    ensures r in NotesOf(cfg, ds)(i) && r.key == MessageKey(ds[j].msg) <==>
            PostNoted(cfg, ds[i], ReasonAt(cfg, ds, i)) && r == Call(MessageKey(ds[i].msg), ds[i].t3)
            && SamePost(ds[i].msg, ds[j].msg)
  {
    NotesAre(cfg, ds[i], ReasonAt(cfg, ds, i), r);
    IdKeys(ds[i].msg, ds[j].msg);
    IdKeys(ds[j].msg, ds[i].msg);
    MessageKeyEqualIff(ds[i].msg, ds[j].msg);
  }

  lemma PostKeyNoted(cfg: Config, ds: seq<Delivery>, j: nat)
    requires j < |ds|
    ensures NotedBefore(cfg, ds, j, Call(MessageKey(ds[j].msg), ds[j].t3)) <==> PostRepeats(cfg, ds, j)
  {
    var c := Call(MessageKey(ds[j].msg), ds[j].t3);
    if NotedBefore(cfg, ds, j, c) {
      var i, r :| 0 <= i < j && r in NotesOf(cfg, ds)(i) && r.key == c.key && c.now - r.now <= cfg.ttl;
      PostNoteIs(cfg, ds, i, j, r);
    }
    if PostRepeats(cfg, ds, j) {
      var i :| 0 <= i < j && PostNoted(cfg, ds[i], ReasonAt(cfg, ds, i))
               && SamePost(ds[i].msg, ds[j].msg) && ds[j].t3 - ds[i].t3 <= cfg.ttl;
      PostNoteIs(cfg, ds, i, j, Call(MessageKey(ds[i].msg), ds[i].t3));
    }
  }

  /**
   The decision on every message of every run with a clock that does not go back: dropped, or a duplicate
   exactly if an earlier message with the same id, or post, was recorded within the time to live, tried in the
   order of the program; and what repeats nothing is up to the access rules alone.
   */
  lemma EveryDecision(cfg: Config, ds: seq<Delivery>, last: int, j: nat)
    requires Timely(ds, last) && j < |ds|
    ensures Reasons(cfg, map[], ds)[j] == ReasonAt(cfg, ds, j)
    ensures ReasonAt(cfg, ds, j) ==
            if Dropped(cfg, ds[j].msg).Some? then Dropped(cfg, ds[j].msg).value
            else if ds[j].msg.eventId != "" && EventRepeats(cfg, ds, j) then DuplicateEvent
            else if ds[j].msg.clientMsgId != "" && ClientRepeats(cfg, ds, j) then DuplicateClientMsg
            else if ds[j].msg.channelId != "" && Stamp(ds[j].msg) != "" && PostRepeats(cfg, ds, j) then DuplicateMessage
            else Policy(cfg, ds[j].msg, ds[j].bound)
  {
    ReasonsAt(cfg, ds, j);
    RunStands(cfg, ds, last, j);
    TimelyEach(ds, last, j);
    DecideStands(cfg, MapAfter(cfg, ds, j), AllNotes(cfg, ds, j), LastTime(ds, j, last), ds[j]);
    RecentIsNoted(cfg, ds, j, Call(EventKey(ds[j].msg), ds[j].t1));
    RecentIsNoted(cfg, ds, j, Call(ClientKey(ds[j].msg), ds[j].t2));
    RecentIsNoted(cfg, ds, j, Call(MessageKey(ds[j].msg), ds[j].t3));
    EventKeyNoted(cfg, ds, j);
    ClientKeyNoted(cfg, ds, j);
    PostKeyNoted(cfg, ds, j);
  }

  /** A message that shares nothing with any earlier one is never taken for a duplicate. */
  lemma FreshIsDecidedByPolicy(cfg: Config, ds: seq<Delivery>, last: int, j: nat)
    requires Timely(ds, last) && j < |ds| && Dropped(cfg, ds[j].msg).None?
    requires forall i :: 0 <= i < j ==>
               && (ds[j].msg.eventId == "" || ds[i].msg.eventId != ds[j].msg.eventId)
               && (ds[j].msg.clientMsgId == "" || ds[i].msg.clientMsgId != ds[j].msg.clientMsgId)
               && !SamePost(ds[i].msg, ds[j].msg)
    ensures Reasons(cfg, map[], ds)[j] == Policy(cfg, ds[j].msg, ds[j].bound)
  {
    EveryDecision(cfg, ds, last, j);
  }

  // ---- what is dropped, and who is admitted ----

  predicate Automated(msg: Input) {
    msg.userIsBot || msg.messageHasBot
  }

  predicate Own(cfg: Config, msg: Input) {
    msg.userId != "" && msg.userId == cfg.appUserId
  }

  /** Exactly which messages are dropped unseen, and why. */
  lemma DroppedIff(cfg: Config, msg: Input)
    ensures Dropped(cfg, msg) == Some(Hidden) <==> msg.hidden
    ensures Dropped(cfg, msg) == Some(Bot) <==> !msg.hidden && Automated(msg)
    ensures Dropped(cfg, msg) == Some(Self) <==> !msg.hidden && !Automated(msg) && Own(cfg, msg)
    ensures forall t :: Dropped(cfg, msg) == Some(Subtype(t)) <==>
                          && !msg.hidden && !Automated(msg) && !Own(cfg, msg) && t == TrimSpace(msg.subtype)
                          && t in {"message_deleted", "message_changed", "bot_message", "channel_join", "channel_leave",
                                   "group_join", "group_leave"}
    ensures Dropped(cfg, msg).Some? ==> Dropped(cfg, msg).value in {Hidden, Bot, Self, Subtype(TrimSpace(msg.subtype))}
  {
  }

  predicate Listed(cfg: Config, msg: Input) {
    cfg.anyChannel || msg.channelId in cfg.allowedChannels
  }

  predicate Addressed(cfg: Config, msg: Input) {
    !cfg.requireMention || cfg.appUserId == "" || Mentions(msg.text, cfg.appUserId)
  }

  /**
   Exactly who is admitted: a listed user in a direct message; in a channel one that is listed or whose thread is
   bound, with a mention where one is required.
   */
  lemma AdmittedIff(cfg: Config, msg: Input, bound: bool)
    ensures Accepts(Policy(cfg, msg, bound)) <==>
            if msg.isIm then msg.userId in cfg.allowedDm else (Listed(cfg, msg) || bound) && Addressed(cfg, msg)
  {
  }

  /** And under which reason. */
  lemma ReasonIff(cfg: Config, msg: Input, bound: bool)
    ensures var r := Policy(cfg, msg, bound);
            && (r == Dm <==> msg.isIm && msg.userId in cfg.allowedDm)
            && (r == DmNotAllowed <==> msg.isIm && msg.userId !in cfg.allowedDm)
            && (r == ChannelNotAllowed <==> !msg.isIm && !Listed(cfg, msg) && !bound)
            && (r == MentionRequired <==> !msg.isIm && (Listed(cfg, msg) || bound) && !Addressed(cfg, msg))
            && (r == BoundThread <==> !msg.isIm && bound && Addressed(cfg, msg))
            && (r == Channel <==> !msg.isIm && Listed(cfg, msg) && !bound && Addressed(cfg, msg))
  {
  }

  /** A mention is the user's id between "<@" and ">" or "|", anywhere in the text. */
  lemma MentionsIff(text: string, userId: string)
    ensures Mentions(text, userId) <==>
            TrimSpace(userId) != "" &&
            exists i :: HasAt(text, i, "<@" + TrimSpace(userId) + ">") || HasAt(text, i, "<@" + TrimSpace(userId) + "|")
  {
    var id := TrimSpace(userId);
    var p, q := "<@" + id + ">", "<@" + id + "|";
    if Find(text, p) >= 0 {
      assert HasAt(text, Find(text, p), p);
    }
    if Find(text, q) >= 0 {
      assert HasAt(text, Find(text, q), q);
    }
  }
}

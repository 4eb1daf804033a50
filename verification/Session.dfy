/** Slack thread keys (internal/session/key.go) and the token registry (internal/contextapi/registry.go). */
module Session {
  import opened Wrappers

  datatype Key = Key(teamID: string, channelID: string, rootThreadTS: string) {
    /** The scheduler's map key. */
    function String(): string {
      teamID + "/" + channelID + "/" + rootThreadTS
    }

    predicate SlashFree() {
      '/' !in teamID && '/' !in channelID
    }
  }

  /** Splitting a string at a separator it contains just once on the left is unambiguous. */
  lemma SplitUnique(a: string, b: string, x: string, y: string)
    requires '/' !in a && '/' !in b
    requires a + "/" + x == b + "/" + y
    ensures a == b && x == y
  {
    var s, t := a + "/" + x, b + "/" + y;
    assert forall i :: 0 <= i < |a| ==> s[i] == a[i] != '/';
    assert forall i :: 0 <= i < |b| ==> t[i] == b[i] != '/';
    assert s[|a|] == '/' && t[|b|] == '/';
    assert |a| == |b|;
    assert a == s[..|a|] && b == t[..|b|];
    assert x == s[|a| + 1..] && y == t[|b| + 1..];
  }

  /** One map key per thread: the key string identifies the thread when team and channel ids hold no '/'. */
  lemma KeyStringInjective(k: Key, l: Key)
    requires k.SlashFree() && l.SlashFree()
    ensures k.String() == l.String() <==> k == l
  {
    if k.String() == l.String() {
      assert k.String() == k.teamID + "/" + (k.channelID + "/" + k.rootThreadTS);
      assert l.String() == l.teamID + "/" + (l.channelID + "/" + l.rootThreadTS);
      SplitUnique(k.teamID, l.teamID, k.channelID + "/" + k.rootThreadTS, l.channelID + "/" + l.rootThreadTS);
      SplitUnique(k.channelID, l.channelID, k.rootThreadTS, l.rootThreadTS);
    }
  }

  /** Moving the separator to another slash gives a second key with the same string. */
  lemma SlashedKeyCollides(k: Key) returns (l: Key)
    requires '/' in k.teamID || '/' in k.channelID || '/' in k.rootThreadTS
    ensures l != k && l.String() == k.String()
  {
    if '/' in k.teamID {
      var i :| 0 <= i < |k.teamID| && k.teamID[i] == '/';
      var a, b := k.teamID[..i], k.teamID[i + 1..];
      assert k.teamID == a + "/" + b;
      l := Key(a, b, k.channelID + "/" + k.rootThreadTS);
      Regroup(a, b, k.channelID, k.rootThreadTS);
    } else if '/' in k.channelID {
      var i :| 0 <= i < |k.channelID| && k.channelID[i] == '/';
      var a, b := k.channelID[..i], k.channelID[i + 1..];
      assert k.channelID == a + "/" + b;
      l := Key(k.teamID, a, b + "/" + k.rootThreadTS);
      Regroup(k.teamID, a, b, k.rootThreadTS);
    } else {
      var i :| 0 <= i < |k.rootThreadTS| && k.rootThreadTS[i] == '/';
      var a, b := k.rootThreadTS[..i], k.rootThreadTS[i + 1..];
      assert k.rootThreadTS == a + "/" + b;
      l := Key(k.teamID, k.channelID + "/" + a, b);
      Regroup(k.teamID, k.channelID, a, b);
    }
  }

  lemma Regroup(a: string, b: string, c: string, d: string)
    ensures Key(a + "/" + b, c, d).String() == a + "/" + b + "/" + c + "/" + d
    ensures Key(a, b + "/" + c, d).String() == a + "/" + b + "/" + c + "/" + d
    ensures Key(a, b, c + "/" + d).String() == a + "/" + b + "/" + c + "/" + d
  {
  }

  /** The positions of the two separators. */
  lemma Separators(k: Key)
    ensures var s, i := k.String(), |k.teamID|;
            var j := i + 1 + |k.channelID|;
            && j < |s| && s[i] == '/' && s[j] == '/'
            && s[..i] == k.teamID && s[i + 1..j] == k.channelID && s[j + 1..] == k.rootThreadTS
  {
  }

  lemma NoOtherSlash(k: Key, n: nat)
    requires '/' !in k.teamID && '/' !in k.channelID && '/' !in k.rootThreadTS
    requires n < |k.String()| && n != |k.teamID| && n != |k.teamID| + 1 + |k.channelID|
    ensures k.String()[n] != '/'
  {
    var s, i := k.String(), |k.teamID|;
    var j := i + 1 + |k.channelID|;
    if n < i {
      assert s[n] == k.teamID[n];
    } else if n < j {
      assert s[n] == k.channelID[n - i - 1];
    } else {
      assert s[n] == k.rootThreadTS[n - j - 1];
    }
  }

  /** A string of three slash-free parts can be read in one way only. */
  lemma SlashFreeUnique(k: Key, l: Key)
    requires '/' !in k.teamID && '/' !in k.channelID && '/' !in k.rootThreadTS && l.String() == k.String()
    ensures l == k
  {
    Separators(k);
    Separators(l);
    var s, i := k.String(), |k.teamID|;
    var j := i + 1 + |k.channelID|;
    forall n | 0 <= n < |s| && n != i && n != j ensures s[n] != '/' {
      NoOtherSlash(k, n);
    }
    assert |l.teamID| == i && |l.teamID| + 1 + |l.channelID| == j;
  }

  /** A thread shares its map key with no other thread exactly if none of its three parts holds a slash. */
  lemma KeyUniqueIff(k: Key)
    ensures (forall l: Key :: l.String() == k.String() ==> l == k) <==>
            '/' !in k.teamID && '/' !in k.channelID && '/' !in k.rootThreadTS
  {
    if '/' !in k.teamID && '/' !in k.channelID && '/' !in k.rootThreadTS {
      forall l: Key | l.String() == k.String() ensures l == k {
        SlashFreeUnique(k, l);
      }
    } else {
      var l := SlashedKeyCollides(k);
    }
  }

  /** The registry object: a token of the empty string stands for "no token" and is ignored. */
  class Registry {
    var m: map<string, Key>

    constructor ()
      ensures m == map[]
    {
      m := map[];
    }

    method Register(token: string, key: Key)
      modifies this
      ensures m == Registered(old(m), token, key)
      ensures token != "" ==> token in m && m[token] == key
      ensures forall t :: t != token || t == "" ==> (t in m <==> t in old(m)) && (t in m ==> m[t] == old(m)[t])
    {
      if token == "" {
        return;
      }
      m := m[token := key];
    }

    method Unregister(token: string)
      modifies this
      ensures m == Unregistered(old(m), token)
      ensures token != "" ==> token !in m
      ensures forall t :: t != token || t == "" ==> (t in m <==> t in old(m)) && (t in m ==> m[t] == old(m)[t])
    {
      if token == "" {
        return;
      }
      m := m - {token};
    }

    method Lookup(token: string) returns (key: Option<Key>)
      ensures key == if token != "" && token in m then Some(m[token]) else None
    {
      if token == "" {
        return None;
      }
      if token in m {
        key := Some(m[token]);
      } else {
        key := None;
      }
    }
  }

  function Registered(m: map<string, Key>, token: string, key: Key): map<string, Key> {
    if token == "" then m else m[token := key]
  }

  function Unregistered(m: map<string, Key>, token: string): map<string, Key> {
    if token == "" then m else m - {token}
  }
}

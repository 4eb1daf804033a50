/** The sequential restore loop fills all placeholders of one kind at once, whatever order they stand in. */
module Restoring {
  import opened Search
  import opened Placeholders

  // ---- texts that can be put back without creating a false match ----

  ghost predicate MarkedEnd(d: Doc) {
    match d
    case End(l) => Marked(l)
    case Node(_, _, r) => MarkedEnd(r)
  }

  /** A replacement that starts and ends with a marked literal. */
  ghost predicate Framed(d: Doc) {
    Marked(d.lit) && MarkedEnd(d)
  }

  /** One that has no body as a literal inside, either. */
  ghost predicate Edged(d: Doc) {
    Framed(d) && Safe(d)
  }

  lemma MarkedConcat(x: string, y: string, z: string)
    requires Marked(y)
    ensures Marked(x + y + z) && Marked(x + y) && Marked(y + z)
  {
    var i :| 0 <= i < |y| && (y[i] == '`' || y[i] == '<');
    assert (x + y + z)[|x| + i] == y[i] && (x + y)[|x| + i] == y[i] && (y + z)[i] == y[i];
  }

  lemma {:induction false} SafeRestAppend(d: Doc, e: Doc)
    requires SafeRest(d) && MarkedEnd(d) && Safe(e)
    ensures SafeRest(Append(d, e))
  {
    match d
    case End(l) =>
      MarkedConcat("", l, e.lit);
      MarkedNotBody(l + e.lit);
    case Node(_, _, r) => SafeRestAppend(r, e);
  }

  /** A replacement between any literal and any safe continuation leaves the text safe, even after another hole. */
  lemma FillIsSafe(l: string, rep: Doc, r: Doc)
    requires Edged(rep) && Safe(r)
    ensures SafeRest(Append(End(l), Append(rep, r)))
  {
    match rep
    case End(x) =>
      MarkedConcat(l, x, r.lit);
      assert l + (x + r.lit) == l + x + r.lit;
      MarkedNotBody(l + (x + r.lit));
    case Node(x, _, r2) =>
      MarkedConcat(l, x, "");
      MarkedNotBody(l + x);
      SafeRestAppend(r2, r);
  }

  lemma {:induction false} SubstSafe(d: Doc, env: map<string, Doc>)
    requires Safe(d) && forall h <- env :: Edged(env[h])
    ensures Safe(Subst(d, env)) && (SafeRest(d) ==> SafeRest(Subst(d, env)))
  {
    match d
    case End(_) =>
    case Node(l, h, r) =>
      SubstSafe(r, env);
      if h in env {
        FillIsSafe(l, env[h], Subst(r, env));
      }
  }

  lemma {:induction false} SubstClean(d: Doc, env: map<string, Doc>)
    requires Clean(d) && forall h <- env :: Clean(env[h])
    ensures Clean(Subst(d, env))
  {
    match d
    case End(_) =>
    case Node(l, h, r) =>
      SubstClean(r, env);
      if h in env {
        CleanAppend(env[h], Subst(r, env));
        CleanAppend(End(l), Append(env[h], Subst(r, env)));
      }
  }

  lemma {:induction false} ReplaceClean(d: Doc, b: string, rep: Doc)
    requires Clean(d) && Clean(rep)
    ensures Clean(ReplaceHole(d, b, rep))
  {
    match d
    case End(_) =>
    case Node(l, h, r) =>
      if h == b {
        CleanAppend(rep, r);
        CleanAppend(End(l), Append(rep, r));
      } else {
        ReplaceClean(r, b, rep);
      }
  }

  // ---- one replacement, whatever the text says ----

  /**
   A mistaken match takes the NULs of its neighbours: the hole before it runs into the value and the hole
   behind it, and inside the value literals and holes change places.
   */
  function Turn(l: string, h: string, rep: Doc, g: string, rest: Doc): Doc
    decreases rep
  {
    match rep
    case End(v) => Node(l, h + v + g, rest)
    case Node(x, k, r) => Node(l, h + x, Turn(k, "", r, g, rest))
  }

  /** What strings.Replace makes of a text with holes. */
  function Step(d: Doc, b: string, rep: Doc): Doc {
    match d
    case End(_) => d
    case Node(l, h, r) =>
      if h == b then Append(End(l), Append(rep, r))
      else if r.Node? && r.lit == b then Turn(l, h, rep, r.hole, r.rest)
      else Node(l, h, Step(r, b, rep))
  }

  lemma {:induction false} TurnText(l: string, h: string, rep: Doc, g: string, rest: Doc)
    ensures Text(Turn(l, h, rep, g, rest)) == l + [NUL] + h + Text(rep) + (g + [NUL] + Text(rest))
    decreases rep
  {
    match rep
    case End(v) =>
    case Node(x, k, r) =>
      TurnText(k, "", r, g, rest);
      TurnGroups(l, h, x, k, Text(r), g + [NUL] + Text(rest));
  }

  lemma TurnGroups(l: string, h: string, x: string, k: string, r: string, rest: string)
    ensures l + [NUL] + (h + x) + [NUL] + (k + [NUL] + "" + r + rest) == l + [NUL] + h + (x + [NUL] + k + [NUL] + r) + rest
  {
  }

  lemma {:induction false} TurnClean(l: string, h: string, rep: Doc, g: string, rest: Doc)
    requires NulFree(l) && NulFree(h) && Clean(rep) && NulFree(g) && Clean(rest)
    ensures Clean(Turn(l, h, rep, g, rest))
    decreases rep
  {
    if rep.Node? {
      TurnClean(rep.hole, "", rep.rest, g, rest);
    }
  }

  lemma {:induction false} StepText(d: Doc, b: string, rep: Doc)
    requires Clean(d) && NulFree(b)
    ensures ReplaceFirst(Text(d), Key(b), Text(rep)) == Text(Step(d, b, rep))
  {
    match d
    case End(l) => ReplaceUnmistaken(d, b, rep);
    case Node(l, h, r) =>
      if h == b {
        FillHole(l, b, r, rep);
      } else if r.Node? && r.lit == b {
        FalseMatch(l, h, b, r.hole + [NUL] + Text(r.rest), Text(rep));
        TurnText(l, h, rep, r.hole, r.rest);
        assert Text(d) == l + [NUL] + h + [NUL] + b + [NUL] + (r.hole + [NUL] + Text(r.rest));
      } else {
        SkipHole(l, h, r, b, rep);
        StepText(r, b, rep);
      }
  }

  lemma {:induction false} StepClean(d: Doc, b: string, rep: Doc)
    requires Clean(d) && Clean(rep)
    ensures Clean(Step(d, b, rep))
  {
    match d
    case End(_) =>
    case Node(l, h, r) =>
      if h == b {
        CleanAppend(rep, r);
        CleanAppend(End(l), Append(rep, r));
      } else if r.Node? && r.lit == b {
        TurnClean(l, h, rep, r.hole, r.rest);
      } else {
        StepClean(r, b, rep);
      }
  }

  lemma {:induction false} StepFills(d: Doc, b: string, rep: Doc)
    requires !Mistaken(d, b)
    ensures Step(d, b, rep) == ReplaceHole(d, b, rep)
  {
    if d.Node? && d.hole != b {
      StepFills(d.rest, b, rep);
    }
  }

  // ---- a mistake leaves a scar that stays ----

  /** A hole that swallowed part of a value. */
  predicate Scarred(d: Doc) {
    exists h :: h in Holes(d) && Marked(h)
  }

  lemma ScarIn(d: Doc, h: string)
    requires h in Holes(d) && Marked(h)
    ensures Scarred(d)
  {
  }

  lemma {:induction false} StepScars(d: Doc, b: string, rep: Doc)
    requires !Marked(b) && Marked(rep.lit) && (Scarred(d) || Mistaken(d, b))
    ensures Scarred(Step(d, b, rep))
  {
    var l, h, r, d' := d.lit, d.hole, d.rest, Step(d, b, rep);
    if h == b {
      var g :| g in Holes(d) && Marked(g);
      HolesAppend(rep, r);
      HolesAppend(End(l), Append(rep, r));
      ScarIn(d', g);
    } else if r.Node? && r.lit == b {
      MarkedConcat(h, rep.lit, if rep.End? then r.hole else "");
      ScarIn(d', d'.hole);
    } else if Marked(h) {
      ScarIn(d', h);
    } else {
      ScarBehind(d);
      StepScars(r, b, rep);
      var g :| g in Holes(Step(r, b, rep)) && Marked(g);
      ScarIn(d', g);
    }
  }

  lemma ScarBehind(d: Doc)
    requires d.Node? && !Marked(d.hole)
    ensures Scarred(d) ==> Scarred(d.rest)
  {
    if Scarred(d) {
      var g :| g in Holes(d) && Marked(g);
      ScarIn(d.rest, g);
    }
  }

  // ---- the loop ----

  /** No hole of the document is a placeholder of this kind. */
  ghost predicate FreeOf(d: Doc, t: Tag) {
    forall k: nat :: Body(t, k) !in Holes(d)
  }

  /** Values with marked ends, which hold neither a scar nor a placeholder of their own kind. */
  ghost predicate Replacements(docs: seq<Doc>, t: Tag) {
    forall k :: 0 <= k < |docs| ==> Clean(docs[k]) && Framed(docs[k]) && FreeOf(docs[k], t) && !Scarred(docs[k])
  }

  ghost predicate AtMostOnce(d: Doc, t: Tag, n: nat) {
    forall k :: 0 <= k < n ==> HoleCount(d, Body(t, k)) <= 1
  }

  /** The restore loop on a text with holes, exact for every text and all values. */
  function RestoreDoc(d: Doc, t: Tag, docs: seq<Doc>, i: nat): Doc
    requires i <= |docs|
    decreases |docs| - i
  {
    if i == |docs| then d else RestoreDoc(Step(d, Body(t, i), docs[i]), t, docs, i + 1)
  }

  lemma {:induction false} RestoreText(d: Doc, t: Tag, docs: seq<Doc>, i: nat)
    requires i <= |docs| && Clean(d) && forall k :: 0 <= k < |docs| ==> Clean(docs[k])
    ensures Restore(Text(d), t, Texts(docs), i) == Text(RestoreDoc(d, t, docs, i))
    ensures Clean(RestoreDoc(d, t, docs, i))
    decreases |docs| - i
  {
    if i < |docs| {
      BodyChars(t, i);
      StepText(d, Body(t, i), docs[i]);
      StepClean(d, Body(t, i), docs[i]);
      RestoreText(Step(d, Body(t, i), docs[i]), t, docs, i + 1);
    }
  }

  lemma {:induction false} ScarStays(d: Doc, t: Tag, docs: seq<Doc>, i: nat)
    requires i <= |docs| && Replacements(docs, t) && Scarred(d)
    ensures Scarred(RestoreDoc(d, t, docs, i))
    decreases |docs| - i
  {
    if i < |docs| {
      BodyUnmarked(t, i);
      StepScars(d, Body(t, i), docs[i]);
      ScarStays(Step(d, Body(t, i), docs[i]), t, docs, i + 1);
    }
  }

  lemma BodyUnmarked(t: Tag, n: nat)
    ensures !Marked(Body(t, n))
  {
    BodyChars(t, n);
  }

  // ---- when the loop is a substitution ----

  /** The text when the loop has filled the placeholders below number `k`. */
  function FilledTo(d: Doc, t: Tag, docs: seq<Doc>, k: nat): Doc
    requires k <= |docs|
  {
    Subst(d, Env(t, docs[..k], 0))
  }

  /** Whenever the loop comes to a number, no literal is taken for its placeholder. */
  predicate Smooth(d: Doc, t: Tag, docs: seq<Doc>) {
    forall k :: 0 <= k < |docs| ==> !Mistaken(FilledTo(d, t, docs, k), Body(t, k))
  }

  lemma {:induction false} ReplaceBehind(v: Doc, e: Doc, b: string, rep: Doc)
    requires b !in Holes(v)
    ensures ReplaceHole(Append(v, e), b, rep) == Append(v, ReplaceHole(e, b, rep))
  {
    match v
    case End(l) =>
      if e.Node? && e.hole == b {
        AppendAssoc(End(l), End(e.lit), Append(rep, e.rest));
      }
    case Node(_, h, r) =>
      assert h in Holes(v) && forall x :: x in Holes(r) ==> x in Holes(v);
      ReplaceBehind(r, e, b, rep);
  }

  /** Filling many holes and then one more is filling them all. */
  lemma {:induction false} SubstLast(d: Doc, env: map<string, Doc>, b: string, rep: Doc)
    requires HoleCount(d, b) <= 1 && b !in env && forall h <- env :: b !in Holes(env[h])
    ensures ReplaceHole(Subst(d, env), b, rep) == Subst(d, env[b := rep])
  {
    match d
    case End(_) =>
    case Node(l, h, r) =>
      assert Holes(d) == [h] + Holes(r);
      if h == b {
        assert b !in Holes(r);
        SubstSame(r, env, env[b := rep]);
      } else {
        SubstLast(r, env, b, rep);
        if h in env {
          var e := Subst(r, env);
          ReplaceBehind(env[h], e, b, rep);
          ReplaceBehind(End(l), Append(env[h], e), b, rep);
        }
      }
  }

  lemma {:induction false} EnvAppend(t: Tag, docs: seq<Doc>, k: nat, i: nat)
    requires i <= k < |docs|
    ensures Env(t, docs[..k + 1], i) == Env(t, docs[..k], i)[Body(t, k) := docs[k]]
    ensures Body(t, k) !in Env(t, docs[..k], i)
    decreases k - i
  {
    if i < k {
      EnvAppend(t, docs, k, i + 1);
      BodyInjective(t, i, t, k);
    } else {
      assert Env(t, docs[..k + 1], k + 1) == map[];
    }
  }

  lemma FillNext(d: Doc, t: Tag, docs: seq<Doc>, k: nat)
    requires k < |docs| && AtMostOnce(d, t, |docs|) && Replacements(docs, t)
    ensures ReplaceHole(FilledTo(d, t, docs, k), Body(t, k), docs[k]) == FilledTo(d, t, docs, k + 1)
  {
    EnvAppend(t, docs, k, 0);
    EnvDomain(t, docs[..k], 0);
    SubstLast(d, Env(t, docs[..k], 0), Body(t, k), docs[k]);
  }

  lemma {:induction false} SmoothLoop(d: Doc, t: Tag, docs: seq<Doc>, i: nat)
    requires i <= |docs| && AtMostOnce(d, t, |docs|) && Replacements(docs, t) && Smooth(d, t, docs)
    ensures RestoreDoc(FilledTo(d, t, docs, i), t, docs, i) == FilledTo(d, t, docs, |docs|)
    decreases |docs| - i
  {
    if i < |docs| {
      StepFills(FilledTo(d, t, docs, i), Body(t, i), docs[i]);
      FillNext(d, t, docs, i);
      SmoothLoop(d, t, docs, i + 1);
    }
  }

  lemma {:induction false} MistakenLoop(d: Doc, t: Tag, docs: seq<Doc>, i: nat, k: nat)
    requires i <= k < |docs| && AtMostOnce(d, t, |docs|) && Replacements(docs, t)
    requires Mistaken(FilledTo(d, t, docs, k), Body(t, k))
    ensures Scarred(RestoreDoc(FilledTo(d, t, docs, i), t, docs, i))
    decreases |docs| - i
  {
    var e, b := FilledTo(d, t, docs, i), Body(t, i);
    if Mistaken(e, b) {
      BodyUnmarked(t, i);
      StepScars(e, b, docs[i]);
      ScarStays(Step(e, b, docs[i]), t, docs, i + 1);
    } else {
      StepFills(e, b, docs[i]);
      FillNext(d, t, docs, i);
      MistakenLoop(d, t, docs, i + 1, k);
    }
  }

  lemma {:induction false} SubstUnscarred(d: Doc, env: map<string, Doc>)
    requires !Scarred(d) && forall h <- env :: !Scarred(env[h])
    ensures !Scarred(Subst(d, env))
  {
    match d
    case End(_) =>
    case Node(l, h, r) =>
      assert forall g :: g in Holes(r) ==> g in Holes(d);
      SubstUnscarred(r, env);
      if h in env {
        HolesAppend(env[h], Subst(r, env));
        HolesAppend(End(l), Append(env[h], Subst(r, env)));
      } else {
        assert Holes(Subst(d, env)) == [h] + Holes(Subst(r, env));
      }
  }

  lemma EnvReplacements(t: Tag, docs: seq<Doc>)
    requires Replacements(docs, t)
    ensures forall h <- Env(t, docs, 0) ::
              var v := Env(t, docs, 0)[h]; Clean(v) && Framed(v) && FreeOf(v, t) && !Scarred(v)
  {
    EnvDomain(t, docs, 0);
  }

  /** The loop on a text without scars: the simultaneous substitution exactly if no literal is ever mistaken, else a scar. */
  lemma RestoredOrScarred(d: Doc, t: Tag, docs: seq<Doc>)
    requires AtMostOnce(d, t, |docs|) && Replacements(docs, t) && Clean(d) && !Scarred(d)
    ensures var e, r := Subst(d, Env(t, docs, 0)), RestoreDoc(d, t, docs, 0);
            Clean(e) && !Scarred(e) && if Smooth(d, t, docs) then r == e else Scarred(r)
  {
    assert docs[..|docs|] == docs && docs[..0] == [];
    SubstNothing(d, map[]);
    EnvReplacements(t, docs);
    SubstClean(d, Env(t, docs, 0));
    SubstUnscarred(d, Env(t, docs, 0));
    if Smooth(d, t, docs) {
      SmoothLoop(d, t, docs, 0);
    } else {
      var k :| 0 <= k < |docs| && Mistaken(FilledTo(d, t, docs, k), Body(t, k));
      MistakenLoop(d, t, docs, 0, k);
    }
  }

  /** The sequential loop is one simultaneous substitution exactly if no literal is ever mistaken. */
  lemma RestoreIsSubst(d: Doc, t: Tag, docs: seq<Doc>)
    requires AtMostOnce(d, t, |docs|) && Replacements(docs, t) && Clean(d) && !Scarred(d)
    ensures Restore(Text(d), t, Texts(docs), 0) == Text(Subst(d, Env(t, docs, 0))) <==> Smooth(d, t, docs)
  {
    RestoredOrScarred(d, t, docs);
    RestoreText(d, t, docs, 0);
    if Restore(Text(d), t, Texts(docs), 0) == Text(Subst(d, Env(t, docs, 0))) {
      TextInjective(RestoreDoc(d, t, docs, 0), Subst(d, Env(t, docs, 0)));
    }
  }

  // ---- where a literal is mistaken, on the text before the loop ----

  /**
   Read over `d` as it stands before the filling: a whole literal between two holes that are not filled yet,
   or between two holes of a value put in before, is `b`, and no hole `b` comes earlier.
   */
  predicate Misread(d: Doc, filled: map<string, Doc>, b: string, between: bool) {
    match d
    case End(_) => false
    case Node(l, h, r) =>
      || (between && l == b && h !in filled)
      || (if h in filled then Mistaken(filled[h], b) || (b !in Holes(filled[h]) && Misread(r, filled, b, false))
          else h != b && Misread(r, filled, b, true))
  }

  lemma {:induction false} MistakenInside(v: Doc, e: Doc, b: string)
    requires MarkedEnd(v) && !Marked(b)
    ensures Mistaken(Append(v, e), b) <==> Mistaken(v, b) || (b !in Holes(v) && Mistaken(e, b))
  {
    match v
    case End(l) =>
    case Node(_, k, r) =>
      MistakenInside(r, e, b);
      if r.End? {
        MarkedConcat("", r.lit, e.lit);
      }
      assert Holes(v) == [k] + Holes(r);
  }

  lemma {:induction false} MisreadIsMistaken(d: Doc, filled: map<string, Doc>, b: string, between: bool)
    requires !Marked(b) && forall h <- filled :: Framed(filled[h])
    ensures var e := Subst(d, filled);
            Misread(d, filled, b, between) <==> Mistaken(e, b) || (between && e.Node? && e.lit == b)
  {
    match d
    case End(_) =>
    case Node(l, h, r) =>
      if h in filled {
        var v, e := filled[h], Subst(r, filled);
        MisreadIsMistaken(r, filled, b, false);
        MistakenInside(v, e, b);
        MarkedConcat(l, v.lit, "");
        if v.End? {
          MarkedConcat(l, v.lit, e.lit);
          assert l + (v.lit + e.lit) == l + v.lit + e.lit;
        }
      } else {
        MisreadIsMistaken(r, filled, b, true);
      }
  }

  lemma {:induction false} FramedEnd(d: Doc, env: map<string, Doc>)
    requires MarkedEnd(d)
    ensures MarkedEnd(Subst(d, env))
  {
    match d
    case End(_) =>
    case Node(l, h, r) =>
      FramedEnd(r, env);
      if h in env {
        EndBehind(env[h], Subst(r, env));
        EndBehind(End(l), Append(env[h], Subst(r, env)));
      }
  }

  lemma {:induction false} EndBehind(d: Doc, e: Doc)
    requires MarkedEnd(e)
    ensures MarkedEnd(Append(d, e))
  {
    match d
    case End(l) =>
      if e.End? {
        MarkedConcat(l, e.lit, "");
      }
    case Node(_, _, r) => EndBehind(r, e);
  }

  lemma SubstFramed(d: Doc, env: map<string, Doc>)
    requires Framed(d)
    ensures Framed(Subst(d, env))
  {
    FramedEnd(d, env);
    if d.Node? && d.hole in env {
      var e := Append(env[d.hole], Subst(d.rest, env));
      MarkedConcat("", d.lit, e.lit);
      assert "" + d.lit == d.lit;
    }
  }
}

/**
 * The timed-effect lists a character and an enemy keep, one list per effect
 * kind (`self.__effects` in src/domain/objects/character.py, `self._effects`
 * in src/domain/objects/enemies/enemy.py), and what one turn does to them.
 * An effect is a value here: the source decrements the period of the stored
 * object in place and later removes expired ones with `list.remove`, which
 * matches by value, so the model replaces list elements by their decremented
 * copies and removes the first equal value.
 */
module EffectBag {
  import opened RogueTypes
  import Lists

  type Bag = map<EffectKind, seq<RogueEffect>>

  /** Every kind has its list, and a list holds effects of its own kind only. */
  predicate WellKeyed(b: Bag)
  {
    && (forall k: EffectKind :: k in b)
    && (forall k, y :: k in b && y in b[k] ==> y.effect == k)
  }

  /** `{eff: [] for eff in list(Effects)}` */
  const Empty: Bag := map[MaxHealth := [], Agility := [], Strength := [], Sleep := [], Health := []]

  lemma EmptyWellKeyed()
    ensures WellKeyed(Empty) && forall k :: k in Empty && Empty[k] == []
  {
    forall k: EffectKind ensures k in Empty && Empty[k] == [] {
      match k
      case MaxHealth =>
      case Agility =>
      case Strength =>
      case Sleep =>
      case Health =>
    }
  }

  /**
   * What `apply_effect` records: an instantaneous effect (period 0) is not
   * kept; a timed sleep replaces every sleep there was, so exactly one
   * remains; any other timed effect is appended to its kind's list.
   */
  function Record(b: Bag, e: RogueEffect): (r: Bag)
    requires WellKeyed(b)
    ensures WellKeyed(r)
    ensures e.period == 0 ==> r == b
    ensures e.period != 0 && e.effect == Sleep ==> r[Sleep] == [e]
    ensures e.period != 0 && e.effect != Sleep ==> r[e.effect] == b[e.effect] + [e]
    ensures forall k :: k != e.effect ==> r[k] == b[k]
  {
    if e.period == 0 then b
    else if e.effect == Sleep && |b[Sleep]| > 0 then b[Sleep := [e]]
    else b[e.effect := b[e.effect] + [e]]
  }

  /** One turn on one effect: a timed effect loses a turn, an expired one (period 0) stays as it is. */
  function Dec(e: RogueEffect): RogueEffect
  {
    if e.period == 0 then e else e.(period := e.period - 1)
  }

  /** A list after the decrementing pass of `check_object_effects`. */
  function Decrement(s: seq<RogueEffect>): (r: seq<RogueEffect>)
    ensures |r| == |s| && forall i :: 0 <= i < |s| ==> r[i] == Dec(s[i])
  {
    seq(|s|, i requires 0 <= i < |s| => Dec(s[i]))
  }

  /** The expired effects of a list (period 0), in list order: what the pass collects for removal. */
  function Zeros(s: seq<RogueEffect>): (r: seq<RogueEffect>)
  {
    if |s| == 0 then []
    else Zeros(s[..|s| - 1]) + (if s[|s| - 1].period == 0 then [s[|s| - 1]] else [])
  }

  /** The expired effects of a list come from it. */
  lemma {:induction false} ZerosWithin(s: seq<RogueEffect>)
    ensures forall y :: y in Zeros(s) ==> y in s && y.period == 0
  {
    if |s| > 0 {
      ZerosWithin(s[..|s| - 1]);
    }
  }

  /** The effects still running after the turn, each one turn shorter. */
  function Active(s: seq<RogueEffect>): seq<RogueEffect>
  {
    if |s| == 0 then []
    else Active(s[..|s| - 1]) + (if s[|s| - 1].period == 0 then [] else [Dec(s[|s| - 1])])
  }

  /** Decrementing keeps an expired effect and shortens every running one. */
  lemma {:induction false} DecrementSplit(s: seq<RogueEffect>)
    ensures multiset(Decrement(s)) == multiset(Active(s)) + multiset(Zeros(s))
  {
    if |s| > 0 {
      var init, x := s[..|s| - 1], s[|s| - 1];
      DecrementSplit(init);
      DecrementSnoc(s);
      SplitStep(Decrement(init), Active(init), Zeros(init), x);
    }
  }

  lemma DecrementSnoc(s: seq<RogueEffect>)
    requires |s| > 0
    ensures Decrement(s) == Decrement(s[..|s| - 1]) + [Dec(s[|s| - 1])]
  {
    var d, d0 := Decrement(s), Decrement(s[..|s| - 1]);
    assert |d| == |d0| + 1;
    assert forall i :: 0 <= i < |d0| ==> d[i] == d0[i];
  }

  /** The step of `DecrementSplit`, on multisets only. */
  lemma SplitStep(d0: seq<RogueEffect>, a0: seq<RogueEffect>, z0: seq<RogueEffect>, x: RogueEffect)
    requires multiset(d0) == multiset(a0) + multiset(z0)
    ensures x.period == 0 ==> multiset(d0 + [Dec(x)]) == multiset(a0) + multiset(z0 + [x])
    ensures x.period != 0 ==> multiset(d0 + [Dec(x)]) == multiset(a0 + [Dec(x)]) + multiset(z0)
  {
  }

  /** The kinds in declaration order, which is the order the effect lists are visited in. */
  function ExpiredOf(b: Bag, j: nat): seq<RogueEffect>
    requires WellKeyed(b) && j <= |AllEffects|
  {
    if j == 0 then [] else ExpiredOf(b, j - 1) + Zeros(b[AllEffects[j - 1]])
  }

  /** Some timed sleep is still running: the one condition that stops the move. */
  predicate Drowsy(b: Bag)
  {
    exists k, i :: k in b && 0 <= i < |b[k]| && b[k][i].effect == Sleep && b[k][i].period != 0
  }

  function TiredMessage(name: string): RogueEvent
  {
    Event(name + " слишком устал.")
  }

  /** A running sleep in the list. */
  predicate Sleeping(s: seq<RogueEffect>)
  {
    exists i :: 0 <= i < |s| && s[i].effect == Sleep && s[i].period != 0
  }

  /** One tiredness message per running sleep of the list, in list order. */
  function Tired(s: seq<RogueEffect>, name: string): seq<RogueEvent>
  {
    if |s| == 0 then []
    else Tired(s[..|s| - 1], name) + (if s[|s| - 1].period != 0 && s[|s| - 1].effect == Sleep then [TiredMessage(name)] else [])
  }

  /** A list's messages are all the tiredness message, and there is one exactly when a sleep runs. */
  lemma {:induction false} TiredFacts(s: seq<RogueEffect>, name: string)
    ensures Tired(s, name) == [] <==> !Sleeping(s)
    ensures forall i :: 0 <= i < |Tired(s, name)| ==> Tired(s, name)[i] == TiredMessage(name)
  {
    if |s| > 0 {
      var s0 := s[..|s| - 1];
      TiredFacts(s0, name);
      if Sleeping(s0) {
        var i :| 0 <= i < |s0| && s0[i].effect == Sleep && s0[i].period != 0;
        assert s[i] == s0[i];
      }
      if Sleeping(s) {
        var i :| 0 <= i < |s| && s[i].effect == Sleep && s[i].period != 0;
        if i < |s0| {
          assert s0[i] == s[i];
        }
      }
    }
  }

  /** The first pass of `check_object_effects` on one list. */
  method AdvanceList(s: seq<RogueEffect>, name: string) returns (r: seq<RogueEffect>, zeros: seq<RogueEffect>, events: seq<RogueEvent>)
    ensures r == Decrement(s) && zeros == Zeros(s) && events == Tired(s, name)
  {
    r, zeros, events := s, [], [];
    for i := 0 to |s|
      invariant |r| == |s|
      invariant forall j :: 0 <= j < i ==> r[j] == Dec(s[j])
      invariant forall j :: i <= j < |s| ==> r[j] == s[j]
      invariant zeros == Zeros(s[..i]) && events == Tired(s[..i], name)
    {
      var e := s[i];
      assert s[..i + 1][..i] == s[..i];
      if e.period == 0 {
        zeros := zeros + [e];
      } else if e.effect == Sleep {
        events := events + [TiredMessage(name)];
      }
      r := r[i := Dec(e)];
    }
    assert s[..|s|] == s;
  }

  /** The lists of the first `j` kinds one turn on, the others as they were. */
  function DecrementedUpTo(b: Bag, j: nat): Bag
    requires WellKeyed(b) && j <= |AllEffects|
  {
    if j == 0 then b else DecrementedUpTo(b, j - 1)[AllEffects[j - 1] := Decrement(b[AllEffects[j - 1]])]
  }

  lemma {:induction false} DecrementedAt(b: Bag, j: nat, k: EffectKind)
    requires WellKeyed(b) && j <= |AllEffects|
    ensures k in DecrementedUpTo(b, j)
    ensures DecrementedUpTo(b, j)[k] == if KindIndex(k) < j then Decrement(b[k]) else b[k]
  {
    if j > 0 {
      DecrementedAt(b, j - 1, k);
      KindIndexOf(j - 1);
      var d, kk := DecrementedUpTo(b, j - 1), AllEffects[j - 1];
      assert DecrementedUpTo(b, j) == d[kk := Decrement(b[kk])];
      assert k == kk <==> KindIndex(k) == j - 1;
    }
  }

  /** Once every kind has been visited, every list is one turn on. */
  lemma DecrementedAll(b: Bag)
    requires WellKeyed(b)
    ensures DecrementedUpTo(b, |AllEffects|) == DecrementAll(b)
  {
    var r := DecrementedUpTo(b, |AllEffects|);
    forall k ensures k in r && r[k] == DecrementAll(b)[k] {
      DecrementedAt(b, |AllEffects|, k);
    }
    assert r.Keys == DecrementAll(b).Keys;
  }

  /** The tiredness messages of the lists of the first `j` kinds, in kind order. */
  function TiredOf(b: Bag, j: nat, name: string): seq<RogueEvent>
    requires WellKeyed(b) && j <= |AllEffects|
  {
    if j == 0 then [] else TiredOf(b, j - 1, name) + Tired(b[AllEffects[j - 1]], name)
  }

  lemma {:induction false} TiredOfFacts(b: Bag, j: nat, name: string)
    requires WellKeyed(b) && j <= |AllEffects|
    ensures TiredOf(b, j, name) == [] <==> Calm(b, j)
    ensures forall i :: 0 <= i < |TiredOf(b, j, name)| ==> TiredOf(b, j, name)[i] == TiredMessage(name)
  {
    if j > 0 {
      TiredOfFacts(b, j - 1, name);
      TiredFacts(b[AllEffects[j - 1]], name);
      var a, c := TiredOf(b, j - 1, name), Tired(b[AllEffects[j - 1]], name);
      assert forall i :: |a| <= i < |a| + |c| ==> (a + c)[i] == c[i - |a|];
    }
  }

  /**
   * The first pass of `check_object_effects`: visits every list in kind
   * order, collects each expired effect for removal, shortens each running
   * one, and reports one tiredness message per running sleep.
   */
  method Advance(b: Bag, name: string) returns (r: Bag, expired: seq<RogueEffect>, events: seq<RogueEvent>)
    requires WellKeyed(b)
    ensures r == DecrementAll(b)
    ensures expired == ExpiredOf(b, |AllEffects|) && events == TiredOf(b, |AllEffects|, name)
    ensures events == [] <==> !Drowsy(b)
    ensures forall i :: 0 <= i < |events| ==> events[i] == TiredMessage(name)
  {
    r, expired, events := b, [], [];
    for j := 0 to |AllEffects|
      invariant r == DecrementedUpTo(b, j) && expired == ExpiredOf(b, j) && events == TiredOf(b, j, name)
    {
      var k := AllEffects[j];
      var list, zeros, tired := AdvanceList(b[k], name);
      r, expired, events := r[k := list], expired + zeros, events + tired;
    }
    AdvanceDone(b, name);
  }

  /** What the first pass has built once every kind has been visited. */
  lemma AdvanceDone(b: Bag, name: string)
    requires WellKeyed(b)
    ensures DecrementedUpTo(b, |AllEffects|) == DecrementAll(b)
    ensures TiredOf(b, |AllEffects|, name) == [] <==> !Drowsy(b)
    ensures forall i :: 0 <= i < |TiredOf(b, |AllEffects|, name)| ==> TiredOf(b, |AllEffects|, name)[i] == TiredMessage(name)
  {
    DecrementedAll(b);
    TiredOfFacts(b, |AllEffects|, name);
    DrowsyIff(b);
  }

  /** Every list one turn on: the bag the decrementing pass leaves. */
  function DecrementAll(b: Bag): (r: Bag)
    requires WellKeyed(b)
    ensures WellKeyed(r) && forall k :: r[k] == Decrement(b[k])
  {
    var r := map k: EffectKind | k in b :: Decrement(b[k]);
    DecrementKeyed(b, r);
    r
  }

  lemma DecrementKeyed(b: Bag, r: Bag)
    requires WellKeyed(b) && forall k :: k in r && r[k] == Decrement(b[k])
    ensures WellKeyed(r)
  {
    forall k, y | y in r[k] ensures y.effect == k {
      var i :| 0 <= i < |r[k]| && r[k][i] == y;
      assert y == Dec(b[k][i]) && b[k][i] in b[k];
    }
  }

  lemma KindIndexOf(j: nat)
    requires j < |AllEffects|
    ensures KindIndex(AllEffects[j]) == j
  {
  }

  function KindIndex(k: EffectKind): (i: nat)
    ensures i < |AllEffects| && AllEffects[i] == k
  {
    match k
    case MaxHealth => 0
    case Agility => 1
    case Strength => 2
    case Sleep => 3
    case Health => 4
  }

  /** No running sleep in the lists of the first `j` kinds. */
  predicate Calm(b: Bag, j: nat)
    requires WellKeyed(b) && j <= |AllEffects|
  {
    j == 0 || (Calm(b, j - 1) && !Sleeping(b[AllEffects[j - 1]]))
  }

  lemma {:induction false} CalmIff(b: Bag, j: nat)
    requires WellKeyed(b) && j <= |AllEffects|
    ensures Calm(b, j) <==> forall j' :: 0 <= j' < j ==> !Sleeping(b[AllEffects[j']])
  {
    if j > 0 {
      CalmIff(b, j - 1);
    }
  }

  lemma DrowsyIff(b: Bag)
    requires WellKeyed(b)
    ensures Drowsy(b) <==> !Calm(b, |AllEffects|)
  {
    CalmIff(b, |AllEffects|);
    if Drowsy(b) {
      var k, i :| k in b && 0 <= i < |b[k]| && b[k][i].effect == Sleep && b[k][i].period != 0;
      assert AllEffects[KindIndex(k)] == k;
      assert Sleeping(b[AllEffects[KindIndex(k)]]);
    }
  }

  /**
   * `remove` of `z` from its kind's list: the first equal effect leaves it,
   * and nothing changes when there is none.
   */
  function Withdraw(b: Bag, z: RogueEffect): (r: Bag)
    requires forall k: EffectKind :: k in b
    ensures forall k: EffectKind :: k in r && (k != z.effect ==> r[k] == b[k])
    ensures z in b[z.effect] ==> multiset(r[z.effect]) == multiset(b[z.effect]) - multiset{z}
    ensures z !in b[z.effect] ==> r == b
    ensures WellKeyed(b) ==> WellKeyed(r)
  {
    Lists.RemoveFirstWithin(b[z.effect], z);
    b[z.effect := Lists.RemoveFirst(b[z.effect], z)]
  }

  /** The lists after `remove` of each effect of `zs`, in turn, from its kind's list. */
  function RemoveEach(b: Bag, zs: seq<RogueEffect>): (r: Bag)
    requires forall k: EffectKind :: k in b
    ensures forall k: EffectKind :: k in r
  {
    if |zs| == 0 then b
    else
      Withdraw(RemoveEach(b, zs[..|zs| - 1]), zs[|zs| - 1])
  }

  lemma {:induction false} RemoveEachWellKeyed(b: Bag, zs: seq<RogueEffect>)
    requires WellKeyed(b)
    ensures WellKeyed(RemoveEach(b, zs))
  {
    if |zs| > 0 {
      RemoveEachWellKeyed(b, zs[..|zs| - 1]);
    }
  }

  /** The effects of kind `k` in `zs`, in order. */
  function OfKind(zs: seq<RogueEffect>, k: EffectKind): seq<RogueEffect>
  {
    if |zs| == 0 then []
    else OfKind(zs[..|zs| - 1], k) + (if zs[|zs| - 1].effect == k then [zs[|zs| - 1]] else [])
  }

  lemma {:induction false} OfKindAppend(a: seq<RogueEffect>, c: seq<RogueEffect>, k: EffectKind)
    ensures OfKind(a + c, k) == OfKind(a, k) + OfKind(c, k)
    decreases |c|
  {
    if |c| == 0 {
      assert a + c == a;
    } else {
      assert (a + c)[..|a + c| - 1] == a + c[..|c| - 1];
      assert (a + c)[|a + c| - 1] == c[|c| - 1];
      OfKindAppend(a, c[..|c| - 1], k);
    }
  }

  lemma {:induction false} OfKindUniform(s: seq<RogueEffect>, u: EffectKind, k: EffectKind)
    requires forall y :: y in s ==> y.effect == u
    ensures OfKind(s, k) == if u == k then s else []
  {
    if |s| > 0 {
      assert s[|s| - 1] in s;
      assert forall y :: y in s[..|s| - 1] ==> y in s;
      OfKindUniform(s[..|s| - 1], u, k);
      assert s == s[..|s| - 1] + [s[|s| - 1]];
    }
  }

  /** Removing effects one by one takes exactly those of each kind out of that kind's list. */
  lemma {:induction false} RemoveEachCount(b: Bag, zs: seq<RogueEffect>, k: EffectKind)
    requires forall k': EffectKind :: k' in b
    requires multiset(OfKind(zs, k)) <= multiset(b[k])
    ensures multiset(RemoveEach(b, zs)[k]) == multiset(b[k]) - multiset(OfKind(zs, k))
  {
    if |zs| > 0 {
      var init, z := zs[..|zs| - 1], zs[|zs| - 1];
      assert OfKind(zs, k) == OfKind(init, k) + (if z.effect == k then [z] else []);
      var r0 := RemoveEach(b, init);
      assert RemoveEach(b, zs) == Withdraw(r0, z);
      if z.effect == k {
        var mb, mi := multiset(b[k]), multiset(OfKind(init, k));
        assert OfKind(zs, k) == OfKind(init, k) + [z];
        assert multiset(OfKind(zs, k)) == mi + multiset{z};
        SubtractOneMore(mb, mi, z);
        RemoveEachCount(b, init, k);
        assert multiset(r0[k]) == mb - mi;
        assert z in multiset(r0[k]);
        assert multiset(RemoveEach(b, zs)[k]) == multiset(r0[k]) - multiset{z};
      } else {
        assert OfKind(zs, k) == OfKind(init, k);
        RemoveEachCount(b, init, k);
        assert RemoveEach(b, zs)[k] == r0[k];
      }
    }
  }

  lemma SubtractOneMore<T>(mb: multiset<T>, mi: multiset<T>, z: T)
    requires mi + multiset{z} <= mb
    ensures mi <= mb && z in mb - mi && (mb - mi) - multiset{z} == mb - (mi + multiset{z})
  {
  }

  /**
   * The lists after each effect of `es` is appended to its own kind's list,
   * as `_load` does: no non-stacking rule, and expired effects stay.
   */
  function Appended(b: Bag, es: seq<RogueEffect>): (r: Bag)
    requires WellKeyed(b)
    ensures WellKeyed(r)
  {
    if |es| == 0 then b
    else
      var r := Appended(b, es[..|es| - 1]);
      var e := es[|es| - 1];
      r[e.effect := r[e.effect] + [e]]
  }

  /** Each kind's list gains exactly the loaded effects of that kind, in their order. */
  lemma {:induction false} AppendedOfKind(b: Bag, es: seq<RogueEffect>, k: EffectKind)
    requires WellKeyed(b)
    ensures Appended(b, es)[k] == b[k] + OfKind(es, k)
  {
    if |es| > 0 {
      AppendedOfKind(b, es[..|es| - 1], k);
      assert (b[k] + OfKind(es[..|es| - 1], k)) + [es[|es| - 1]] == b[k] + (OfKind(es[..|es| - 1], k) + [es[|es| - 1]]);
    }
  }

  /** The expired effects listed for removal, restricted to one kind, are that kind's expired effects. */
  lemma {:induction false} ExpiredOfKind(b: Bag, j: nat, k: EffectKind)
    requires WellKeyed(b) && j <= |AllEffects|
    ensures OfKind(ExpiredOf(b, j), k) == if KindIndex(k) < j then Zeros(b[k]) else []
  {
    if j > 0 {
      var u := AllEffects[j - 1];
      ExpiredOfKind(b, j - 1, k);
      ZerosOfKind(b, u);
      ExpiredStep(ExpiredOf(b, j - 1), Zeros(b[u]), Zeros(b[k]), j, u, k);
    }
  }

  /** One more kind's expired effects, `zs` of kind `u`, added to the collected ones. */
  lemma ExpiredStep(before: seq<RogueEffect>, zs: seq<RogueEffect>, zk: seq<RogueEffect>, j: nat, u: EffectKind, k: EffectKind)
    requires 0 < j <= |AllEffects| && u == AllEffects[j - 1] && (k == u ==> zs == zk)
    requires forall y :: y in zs ==> y.effect == u
    requires OfKind(before, k) == if KindIndex(k) < j - 1 then zk else []
    ensures OfKind(before + zs, k) == if KindIndex(k) < j then zk else []
  {
    KindIndexOf(j - 1);
    OfKindJoin(before, zs, u, k);
    if k == u {
      assert KindIndex(k) == j - 1;
    } else {
      assert KindIndex(k) != j - 1;
    }
  }

  /** The expired effects of the `u` list are all of kind `u`. */
  lemma ZerosOfKind(b: Bag, u: EffectKind)
    requires WellKeyed(b)
    ensures forall y :: y in Zeros(b[u]) ==> y.effect == u
  {
    ZerosWithin(b[u]);
  }

  /** Appending effects all of kind `u` adds to the `u` list only. */
  lemma OfKindJoin(before: seq<RogueEffect>, zs: seq<RogueEffect>, u: EffectKind, k: EffectKind)
    requires forall y :: y in zs ==> y.effect == u
    ensures OfKind(before + zs, k) == if u == k then OfKind(before, k) + zs else OfKind(before, k)
  {
    OfKindUniform(zs, u, k);
    OfKindAppend(before, zs, k);
    if u != k {
      assert OfKind(before, k) + [] == OfKind(before, k);
    }
  }

  /**
   * One turn of `check_object_effects` on the lists: after the decrementing
   * pass and the removal of everything it collected, each kind's list holds
   * exactly the effects that were running, each one turn shorter.
   */
  lemma TurnLeavesActive(b: Bag, r: Bag, k: EffectKind)
    requires WellKeyed(b) && WellKeyed(r)
    requires forall k' :: r[k'] == Decrement(b[k'])
    ensures multiset(RemoveEach(r, ExpiredOf(b, |AllEffects|))[k]) == multiset(Active(b[k]))
  {
    ExpiredOfKind(b, |AllEffects|, k);
    DecrementSplit(b[k]);
    RemoveEachCount(r, ExpiredOf(b, |AllEffects|), k);
  }

  /**
   * After a turn, every list holds exactly its running effects, each one
   * turn shorter (up to order): the expired ones are gone.
   */
  lemma TurnKeepsActive(b: Bag)
    requires WellKeyed(b)
    ensures forall k :: multiset(RemoveEach(DecrementAll(b), ExpiredOf(b, |AllEffects|))[k]) == multiset(Active(b[k]))
  {
    forall k ensures multiset(RemoveEach(DecrementAll(b), ExpiredOf(b, |AllEffects|))[k]) == multiset(Active(b[k])) {
      TurnLeavesActive(b, DecrementAll(b), k);
    }
  }

  /** Each effect the removal pass takes out is still in its list when its turn comes. */
  lemma NextPresent(b: Bag, r: Bag, i: nat)
    requires WellKeyed(b) && WellKeyed(r)
    requires forall k' :: r[k'] == Decrement(b[k'])
    requires i < |ExpiredOf(b, |AllEffects|)|
    ensures var zs := ExpiredOf(b, |AllEffects|);
      zs[i] in RemoveEach(r, zs[..i])[zs[i].effect]
  {
    var zs := ExpiredOf(b, |AllEffects|);
    var k := zs[i].effect;
    ExpiredOfKind(b, |AllEffects|, k);
    DecrementSplit(b[k]);
    PresentWhileCovered(r, zs, i);
  }

  lemma PresentWhileCovered(r: Bag, zs: seq<RogueEffect>, i: nat)
    requires forall k: EffectKind :: k in r
    requires i < |zs| && multiset(OfKind(zs, zs[i].effect)) <= multiset(r[zs[i].effect])
    ensures zs[i] in RemoveEach(r, zs[..i])[zs[i].effect]
  {
    var z, k := zs[i], zs[i].effect;
    assert zs == zs[..i] + [z] + zs[i + 1..];
    OfKindAppend(zs[..i] + [z], zs[i + 1..], k);
    OfKindAppend(zs[..i], [z], k);
    assert OfKind([z], k) == [z] by {
      assert [z][..0] == [];
    }
    assert multiset(OfKind(zs[..i], k)) + multiset{z} <= multiset(r[k]);
    RemoveEachCount(r, zs[..i], k);
    assert multiset(RemoveEach(r, zs[..i])[k])[z] > 0;
  }
}

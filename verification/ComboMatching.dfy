/**
  When taking the first key that fits is good enough. The engine gives a step its keys binding by
  binding and never goes back, so a wildcard can take the key that a later binding needs.
*/
module ComboMatching {
  import opened Wrappers
  import opened ComboModel
  import opened ComboLaws

  /** Every key that matches `e` matches `f`. */
  predicate Narrower(e: Binding, f: Binding) {
    && e.token == f.token
    && (f.hardwareId == "" || f.hardwareId == e.hardwareId)
    && (f.source == "" || f.source == e.source)
  }

  /** No key matches both. */
  predicate Apart(e: Binding, f: Binding) {
    || e.token != f.token
    || (e.hardwareId != "" && f.hardwareId != "" && e.hardwareId != f.hardwareId)
    || (e.source != "" && f.source != "" && e.source != f.source)
  }

  /** Bindings that can compete for a key stand in order, the narrower one first. */
  predicate NarrowFirst(bindings: seq<Binding>) {
    forall i, j | 0 <= i < j < |bindings| ::
      Narrower(bindings[i], bindings[j]) || Apart(bindings[i], bindings[j])
  }

  /** The keys are all different, fit the bindings, and are held or just pressed. */
  ghost predicate Serves(keys: seq<Binding>, bindings: seq<Binding>, b: Binding, held: set<Binding>) {
    Assigns(keys, bindings) && forall k | k in keys :: k in held || k == b
  }

  /** Give the first binding the key `c`; whoever had it takes the key that becomes free. */
  lemma Exchange(keys: seq<Binding>, bindings: seq<Binding>, c: Binding) returns (rest: seq<Binding>)
    requires bindings != [] && NarrowFirst(bindings) && Assigns(keys, bindings) && BindingMatches(bindings[0], c)
    ensures Assigns(rest, bindings[1..]) && c !in rest && forall k | k in rest :: k in keys
  {
    if j :| 1 <= j < |keys| && keys[j] == c {
      assert Narrower(bindings[0], bindings[j]);
      rest := keys[1..][j - 1 := keys[0]];
      assert BindingMatches(bindings[j], keys[0]);
    } else {
      rest := keys[1..];
    }
  }

  /** If some assignment of the keys that are left exists, the greedy one succeeds. */
  lemma {:induction false} GreedySucceeds(keys: seq<Binding>, bindings: seq<Binding>, b: Binding, held: set<Binding>,
                                          pick: Pick, matched: set<Binding>, used: bool)
    requires GoodPick(pick) && NarrowFirst(bindings) && Serves(keys, bindings, b, held)
    requires (forall k | k in keys :: k !in matched) && (used <==> b in matched)
    ensures MatchStep(bindings, b, held, pick, matched, used).Some?
    decreases |bindings|
  {
    if bindings != [] {
      var takesCurrent := !used && BindingMatches(bindings[0], b);
      var free := MatchingHeld(held, bindings[0]) - matched;
      assert keys[0] in keys;
      assert takesCurrent || keys[0] in free;
      var c := if takesCurrent then b else pick(bindings[0], free);
      assert takesCurrent || c in free;
      var rest := Exchange(keys, bindings, c);
      GreedySucceeds(rest, bindings[1..], b, held, pick, matched + {c}, used || takesCurrent);
    }
  }

  /** With the narrower bindings first, a first step is matched if and only if its bindings can be
      given different keys at all, whatever the order of the sets. */
  lemma MatchedIffPossible(combo: Combo, b: Binding, held: set<Binding>, pick: Pick)
    requires GoodPick(pick) && NarrowFirst(FirstBindings(combo))
    ensures MatchFirstStep(combo, b, held, pick).Some? <==> exists keys :: Serves(keys, FirstBindings(combo), b, held)
  {
    if MatchFirstStep(combo, b, held, pick).Some? {
      var keys := FirstStepAssignment(combo, b, held, pick);
      assert Serves(keys, FirstBindings(combo), b, held);
    }
    if keys :| Serves(keys, FirstBindings(combo), b, held) {
      GreedySucceeds(keys, FirstBindings(combo), b, held, pick, {}, false);
    }
  }

  // ---- Otherwise it can fail ----

  function Common(e: string, f: string): string { if e != "" then e else f }

  /** Fits `e`, and fits `f` only if `f` does not ask for more than `e`. */
  function Beside(e: string, f: string): string { if e != "" then e else if f != "" then f + "'" else "" }

  lemma BesideFacts(e: string, f: string)
    ensures e == "" || Beside(e, f) == e
    ensures f == "" || Beside(e, f) == f ==> f == "" || f == e
  {
    if e == "" && f != "" { assert |Beside(e, f)| == |f| + 1; }
  }

  /** Names that tell keys apart. */
  function Name(l: nat): string { seq(l, _ => 'x') }

  /** A key for the binding `e`, which matches `f` only if every key of `e` does. */
  function KeyBeside(e: Binding, f: Binding, l: nat): Binding {
    Binding(Beside(e.hardwareId, f.hardwareId), Name(l), e.token, Beside(e.source, f.source))
  }

  /** A key that both bindings can use. */
  function KeyCommon(e: Binding, f: Binding, l: nat): Binding {
    Binding(Common(e.hardwareId, f.hardwareId), Name(l), f.token, Common(e.source, f.source))
  }

  lemma KeyBesideFacts(e: Binding, f: Binding, l: nat)
    ensures BindingMatches(e, KeyBeside(e, f, l))
    ensures BindingMatches(f, KeyBeside(e, f, l)) ==> Narrower(e, f)
  {
    BesideFacts(e.hardwareId, f.hardwareId);
    BesideFacts(e.source, f.source);
  }

  /** One key for every binding: a key that `bindings[i]` can use as well for `bindings[j]`, and keys
      that leave `bindings[j]` alone where possible for the others. */
  function OwnKeys(bindings: seq<Binding>, i: nat, j: nat): seq<Binding>
    requires i < j < |bindings|
  {
    seq(|bindings|, l requires 0 <= l < |bindings| =>
      if l == j then KeyCommon(bindings[i], bindings[j], l) else KeyBeside(bindings[l], bindings[j], l))
  }

  /** Keys of the other bindings match `bindings[j]` only if all keys of theirs do. */
  ghost predicate Avoids(own: seq<Binding>, bindings: seq<Binding>, j: nat)
    requires j < |bindings| == |own|
  {
    forall l | 0 <= l < |own| && l != j :: BindingMatches(bindings[j], own[l]) ==> Narrower(bindings[l], bindings[j])
  }

  lemma OwnKeysServe(bindings: seq<Binding>, i: nat, j: nat)
    requires i < j < |bindings| && !Apart(bindings[i], bindings[j])
    ensures var own := OwnKeys(bindings, i, j);
            Assigns(own, bindings) && BindingMatches(bindings[i], own[j]) && Avoids(own, bindings, j)
  {
    var own := OwnKeys(bindings, i, j);
    forall l | 0 <= l < |own|
      ensures BindingMatches(bindings[l], own[l]) && |own[l].evdev| == l
      ensures l != j && BindingMatches(bindings[j], own[l]) ==> Narrower(bindings[l], bindings[j])
    {
      if l != j { KeyBesideFacts(bindings[l], bindings[j], l); }
    }
  }

  // ---- Choosing badly ----

  /** The first of the preferred keys that is there, or else any. */
  ghost function Choose(preferred: seq<Binding>, s: set<Binding>): Binding {
    if preferred != [] then if preferred[0] in s then preferred[0] else Choose(preferred[1..], s)
    else if s == {} then Binding("", "", "", "")
    else var x :| x in s; x
  }

  lemma {:induction false} ChooseFacts(preferred: seq<Binding>, s: set<Binding>)
    ensures s != {} ==> Choose(preferred, s) in s
  {
    if preferred != [] { ChooseFacts(preferred[1..], s); }
  }

  lemma {:induction false} ChooseFirst(preferred: seq<Binding>, s: set<Binding>, l: nat)
    requires l < |preferred| && preferred[l] in s && forall m | 0 <= m < l :: preferred[m] !in s
    ensures Choose(preferred, s) == preferred[l]
  {
    if l > 0 { ChooseFirst(preferred[1..], s, l - 1); }
  }

  /** A pick with these preferences. */
  ghost function Preferring(preferred: seq<Binding>): Pick {
    (e: Binding, s: set<Binding>) => Choose(preferred, s)
  }

  lemma PreferringIsGood(preferred: seq<Binding>)
    ensures GoodPick(Preferring(preferred))
  {
    forall e: Binding, s: set<Binding> | s != {} ensures Preferring(preferred)(e, s) in s {
      ChooseFacts(preferred, s);
    }
  }

  /** With the first preferred key just pressed, the first bindings take the preferred keys. */
  lemma {:induction false} TakesPreferred(bindings: seq<Binding>, preferred: seq<Binding>, held: set<Binding>, l: nat)
    requires 1 <= l <= |preferred| <= |bindings| && Distinct(preferred)
    requires forall m | 0 <= m < |preferred| :: BindingMatches(bindings[m], preferred[m]) && preferred[m] in held
    ensures var pick, b := Preferring(preferred), preferred[0];
            MatchStep(bindings, b, held, pick, {}, false)
            == MatchStep(bindings[l..], b, held, pick, Elements(preferred[..l]), true)
  {
    var pick, b := Preferring(preferred), preferred[0];
    if l == 1 {
      assert Elements(preferred[..1]) == {} + {b};
    } else {
      TakesPreferred(bindings, preferred, held, l - 1);
      var matched := Elements(preferred[..l - 1]);
      var free := MatchingHeld(held, bindings[l - 1]) - matched;
      forall m | 0 <= m < l - 1 ensures preferred[m] !in free {
        assert preferred[..l - 1][m] == preferred[m];
      }
      assert preferred[l - 1] !in preferred[..l - 1];
      ChooseFirst(preferred, free, l - 1);
      assert bindings[l - 1..][1..] == bindings[l..];
      assert Elements(preferred[..l]) == matched + {preferred[l - 1]} by {
        assert preferred[..l] == preferred[..l - 1] + [preferred[l - 1]];
      }
    }
  }

  // ---- Counting ----

  ghost function Image(indices: set<int>, xs: seq<Binding>): set<Binding>
    requires forall l | l in indices :: 0 <= l < |xs|
  {
    set l | l in indices :: xs[l]
  }

  lemma Member<T>(s: set<T>) returns (x: T)
    requires s != {}
    ensures x in s
  {
    x :| x in s;
  }

  lemma {:induction false} ImageSize(indices: set<int>, xs: seq<Binding>)
    requires forall l | l in indices :: 0 <= l < |xs|
    ensures |Image(indices, xs)| <= |indices|
    ensures Distinct(xs) ==> |Image(indices, xs)| == |indices|
    decreases |indices|
  {
    if indices != {} {
      var l := Member(indices);
      var rest := indices - {l};
      ImageSize(rest, xs);
      assert Image(indices, xs) == Image(rest, xs) + {xs[l]};
      assert Distinct(xs) ==> xs[l] !in Image(rest, xs);
    }
  }

  lemma SmallerSet<T>(a: set<T>, b: set<T>)
    requires a <= b
    ensures |a| <= |b|
    decreases |a|
  {
    if a != {} {
      var x :| x in a;
      SmallerSet(a - {x}, b - {x});
    }
  }

  /** The keys in `all` serve the bindings, the first ones with their own keys and `bindings[i]` with the
      key of `bindings[j]`. Then the bindings behind `i` that are narrower than `bindings[j]` have their
      keys among the own keys of the same bindings, of which one is gone. */
  lemma NarrowerKeys(bindings: seq<Binding>, own: seq<Binding>, all: seq<Binding>, i: nat, j: nat, l: int)
    returns (m: int)
    requires i < j < |bindings| == |own| && Assigns(all, bindings) && !Narrower(bindings[i], bindings[j])
    requires forall k | k in all :: k in own
    requires (forall m | 0 <= m < i :: all[m] == own[m]) && all[i] == own[j]
    requires Avoids(own, bindings, j)
    requires i < l < |bindings| && Narrower(bindings[l], bindings[j])
    ensures i < m < |bindings| && m != j && Narrower(bindings[m], bindings[j]) && own[m] == all[l]
  {
    assert all[l] in all;
    m :| 0 <= m < |own| && own[m] == all[l];
    assert BindingMatches(bindings[j], all[l]);
  }

  lemma NotServed(bindings: seq<Binding>, own: seq<Binding>, all: seq<Binding>, i: nat, j: nat)
    requires i < j < |bindings| == |own| && !Narrower(bindings[i], bindings[j])
    requires forall k | k in all :: k in own
    requires |all| == |bindings| && (forall m | 0 <= m < i :: all[m] == own[m]) && all[i] == own[j]
    requires Avoids(own, bindings, j)
    ensures !Assigns(all, bindings)
  {
    if Assigns(all, bindings) {
      var narrow := set l: int | i < l < |bindings| && Narrower(bindings[l], bindings[j]);
      assert j in narrow;
      forall k | k in Image(narrow, all) ensures k in Image(narrow - {j}, own) {
        var l :| l in narrow && all[l] == k;
        var m := NarrowerKeys(bindings, own, all, i, j, l);
        assert m in narrow - {j};
      }
      ImageSize(narrow, all);
      ImageSize(narrow - {j}, own);
      SmallerSet(Image(narrow, all), Image(narrow - {j}, own));
    }
  }

  // ---- The exact condition ----

  /** Bindings out of order: with a key of its own for every binding, the earlier binding may be given
      the key of the later one, and then not all the rest can be served. */
  lemma OutOfOrderFails(bindings: seq<Binding>, i: nat, j: nat)
    returns (b: Binding, held: set<Binding>, keys: seq<Binding>, pick: Pick)
    requires i < j < |bindings| && !Narrower(bindings[i], bindings[j]) && !Apart(bindings[i], bindings[j])
    ensures GoodPick(pick) && b in held && BindingMatches(bindings[0], b) && Serves(keys, bindings, b, held)
    ensures MatchStep(bindings, b, held, pick, {}, false).None?
  {
    keys := OwnKeys(bindings, i, j);
    OwnKeysServe(bindings, i, j);
    held := Elements(keys);
    var taken := Taken(bindings, keys, i, j);
    b, pick := taken[0], Preferring(taken);
    PreferringIsGood(taken);
    TakesPreferred(bindings, taken, held, i + 1);
    RestNotServed(bindings, keys, taken, i, j, b, held, pick);
  }

  /** The first bindings with their own keys, and then one with the key of another. */
  lemma Taken(bindings: seq<Binding>, own: seq<Binding>, i: nat, j: nat) returns (taken: seq<Binding>)
    requires i < j < |bindings| && Assigns(own, bindings) && BindingMatches(bindings[i], own[j])
    ensures taken == own[..i] + [own[j]] && taken[..i + 1] == taken && Assigns(taken, bindings[..i + 1])
    ensures forall m | 0 <= m < |taken| :: BindingMatches(bindings[m], taken[m]) && taken[m] in Elements(own)
  {
    taken := own[..i] + [own[j]];
    assert forall m | 0 <= m < |taken| :: taken[m] in own;
  }

  lemma RestNotServed(bindings: seq<Binding>, own: seq<Binding>, taken: seq<Binding>, i: nat, j: nat,
                    b: Binding, held: set<Binding>, pick: Pick)
    requires i < j < |bindings| == |own| && !Narrower(bindings[i], bindings[j]) && GoodPick(pick)
    requires taken == own[..i] + [own[j]] && Assigns(taken, bindings[..i + 1]) && held == Elements(own) && b in taken
    requires Avoids(own, bindings, j)
    ensures MatchStep(bindings[i + 1..], b, held, pick, Elements(taken), true).None?
  {
    if MatchStep(bindings[i + 1..], b, held, pick, Elements(taken), true).Some? {
      var all := ServedAll(bindings, own, taken, i, b, held, pick);
      assert all[i] == taken[i];
      assert forall m | 0 <= m < i :: all[m] == taken[m];
      NotServed(bindings, own, all, i, j);
    }
  }

  lemma ServedAll(bindings: seq<Binding>, own: seq<Binding>, taken: seq<Binding>, i: nat,
                  b: Binding, held: set<Binding>, pick: Pick)
    returns (all: seq<Binding>)
    requires i < |bindings| && GoodPick(pick) && held == Elements(own)
    requires Assigns(taken, bindings[..i + 1]) && b in taken && forall k | k in taken :: k in own
    requires MatchStep(bindings[i + 1..], b, held, pick, Elements(taken), true).Some?
    ensures Assigns(all, bindings) && taken <= all && forall k | k in all :: k in own
  {
    all := MatchStepAssigns(bindings[..i + 1], taken, bindings[i + 1..], b, held, pick, true);
    assert bindings[..i + 1] + bindings[i + 1..] == bindings;
  }

  /** Whether a step always finds its keys when there are some. */
  ghost predicate AlwaysMatched(bindings: seq<Binding>) {
    forall b: Binding, held: set<Binding>, keys: seq<Binding>, pick: Pick ::
      GoodPick(pick) && Serves(keys, bindings, b, held) ==> MatchStep(bindings, b, held, pick, {}, false).Some?
  }

  /** A step always finds its keys when there are some if and only if no two of its bindings that can
      compete for a key stand in the wrong order. */
  lemma AlwaysMatchedIff(bindings: seq<Binding>)
    ensures AlwaysMatched(bindings) <==> NarrowFirst(bindings)
  {
    if NarrowFirst(bindings) {
      forall b: Binding, held: set<Binding>, keys: seq<Binding>, pick: Pick
        | GoodPick(pick) && Serves(keys, bindings, b, held)
        ensures MatchStep(bindings, b, held, pick, {}, false).Some?
      {
        GreedySucceeds(keys, bindings, b, held, pick, {}, false);
      }
    } else {
      var i, j :| 0 <= i < j < |bindings| && !Narrower(bindings[i], bindings[j]) && !Apart(bindings[i], bindings[j]);
      var b, held, keys, pick := OutOfOrderFails(bindings, i, j);
    }
  }

  /** "A on any keyboard and A on the first keyboard" with both keys down does not start when the key
      of the first keyboard is pressed last. */
  lemma WildcardTakesKey(pick: Pick)
    ensures var any, first := Binding("", "", "a", ""), Binding("one", "", "a", "");
            var b, other := Binding("one", "key_a", "a", "event1"), Binding("two", "key_a", "a", "event2");
            && Serves([other, b], [any, first], b, {b, other})
            && MatchStep([any, first], b, {b, other}, pick, {}, false).None?
  {
    var any, first := Binding("", "", "a", ""), Binding("one", "", "a", "");
    var b, other := Binding("one", "key_a", "a", "event1"), Binding("two", "key_a", "a", "event2");
    assert !BindingMatches(first, other);
    var rest := [any, first][1..];
    assert rest == [first];
    assert MatchingHeld({b, other}, first) - ({} + {b}) == {};
    assert MatchStep(rest, b, {b, other}, pick, {} + {b}, true).None?;
  }
}

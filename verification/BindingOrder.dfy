/**
  Keys that are held when the engine starts count as pressed in a fixed order: by hardware id, then
  source, then reported name.
*/
module BindingOrder {
  import opened ComboModel
  import opened ComboLaws

  /** Strings in the order of their code points. */
  predicate StrLe(a: string, b: string) {
    a == [] || (b != [] && (a[0] < b[0] || (a[0] == b[0] && StrLe(a[1..], b[1..]))))
  }

  lemma {:induction false} StrTotal(a: string, b: string)
    ensures StrLe(a, b) || StrLe(b, a)
  {
    if a != [] && b != [] { StrTotal(a[1..], b[1..]); }
  }

  lemma {:induction false} StrEqual(a: string, b: string)
    requires StrLe(a, b) && StrLe(b, a)
    ensures a == b
  {
    if a != [] && b != [] {
      StrEqual(a[1..], b[1..]);
      assert a == [a[0]] + a[1..] && b == [b[0]] + b[1..];
    }
  }

  lemma {:induction false} StrTrans(a: string, b: string, c: string)
    requires StrLe(a, b) && StrLe(b, c)
    ensures StrLe(a, c)
  {
    if a != [] && a[0] == b[0] == c[0] { StrTrans(a[1..], b[1..], c[1..]); }
  }

  predicate BindingLe(x: Binding, y: Binding) {
    if x.hardwareId != y.hardwareId then StrLe(x.hardwareId, y.hardwareId)
    else if x.source != y.source then StrLe(x.source, y.source)
    else StrLe(x.evdev, y.evdev)
  }

  lemma BindingTotal(x: Binding, y: Binding)
    ensures BindingLe(x, y) || BindingLe(y, x)
  {
    StrTotal(x.hardwareId, y.hardwareId);
    StrTotal(x.source, y.source);
    StrTotal(x.evdev, y.evdev);
  }

  lemma PartTrans(a: string, b: string, c: string)
    ensures StrLe(a, b) && StrLe(b, c) ==> StrLe(a, c) && (a == c ==> a == b)
  {
    if StrLe(a, b) && StrLe(b, c) {
      StrTrans(a, b, c);
      if a == c { StrEqual(a, b); }
    }
  }

  lemma BindingTrans(x: Binding, y: Binding, z: Binding)
    requires BindingLe(x, y) && BindingLe(y, z)
    ensures BindingLe(x, z)
  {
    PartTrans(x.hardwareId, y.hardwareId, z.hardwareId);
    PartTrans(x.source, y.source, z.source);
    PartTrans(x.evdev, y.evdev, z.evdev);
  }

  /** The keys of a set, once each, in order. */
  ghost predicate InOrder(keys: seq<Binding>, bindings: set<Binding>) {
    && Distinct(keys) && (forall b :: b in keys <==> b in bindings)
    && forall i, j | 0 <= i < j < |keys| :: BindingLe(keys[i], keys[j])
  }

  lemma FirstExists(bindings: set<Binding>)
    requires bindings != {}
    ensures exists b :: b in bindings && forall x | x in bindings :: BindingLe(b, x)
    decreases |bindings|
  {
    var k :| k in bindings;
    BindingTotal(k, k);
    if bindings != {k} {
      var rest := bindings - {k};
      FirstExists(rest);
      var m :| m in rest && forall x | x in rest :: BindingLe(m, x);
      BindingTotal(k, m);
      var first := if BindingLe(k, m) then k else m;
      forall x | x in bindings ensures BindingLe(first, x) {
        if x in rest && first == k { BindingTrans(k, m, x); }
      }
    }
  }

  method Sort(bindings: set<Binding>) returns (keys: seq<Binding>)
    ensures InOrder(keys, bindings)
  {
    keys := [];
    var rest := bindings;
    while rest != {}
      invariant rest <= bindings && InOrder(keys, bindings - rest)
      invariant forall k, x | k in keys && x in rest :: BindingLe(k, x)
      decreases |rest|
    {
      FirstExists(rest);
      var b :| b in rest && forall x | x in rest :: BindingLe(b, x);
      keys, rest := keys + [b], rest - {b};
    }
    assert bindings - rest == bindings;
  }
}

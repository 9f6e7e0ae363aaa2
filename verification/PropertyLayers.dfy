/**
 Layering of application properties. A property list keeps its keys in order of
 first insertion; `Build` drops from the defaults what the user already set,
 merges them into the user's own list and lets the immutable ones win.
 */
module PropertyLayers {
  import opened Common

  /** A property list of the properties library: values by key, and the key order. */
  datatype Props = Props(values: map<string, string>, keys: seq<string>)

  const EMPTY := Props(map[], [])

  ghost predicate Valid(p: Props) {
    && (forall k :: k in p.keys <==> k in p.values)
    && forall i, j :: 0 <= i < j < |p.keys| ==> p.keys[i] != p.keys[j]
  }

  function Get(p: Props, k: string): Option<string> {
    if k in p.values then Some(p.values[k]) else None
  }

  function Filter(keys: seq<string>, without: set<string>): seq<string> {
    if keys == [] then []
    else (if keys[0] in without then [] else [keys[0]]) + Filter(keys[1..], without)
  }

  /** The list without some keys. */
  function Minus(p: Props, ks: set<string>): Props {
    Props(p.values - ks, Filter(p.keys, ks))
  }

  /** Merging appends the new keys in order and overwrites values. */
  function Merge(p: Props, q: Props): Props {
    Props(p.values + q.values, p.keys + Filter(q.keys, set k | k in p.keys))
  }

  lemma {:induction false} FilterMembers(keys: seq<string>, without: set<string>)
    ensures forall k :: k in Filter(keys, without) <==> k in keys && k !in without
    ensures (forall i, j :: 0 <= i < j < |keys| ==> keys[i] != keys[j]) ==>
            forall i, j :: 0 <= i < j < |Filter(keys, without)| ==> Filter(keys, without)[i] != Filter(keys, without)[j]
  {
    if keys == [] {
    } else {
      FilterMembers(keys[1..], without);
      assert forall k :: k in keys <==> k == keys[0] || k in keys[1..];
    }
  }

  /** What is left keeps its order. */
  lemma {:induction false} FilterAppend(a: seq<string>, b: seq<string>, without: set<string>)
    ensures Filter(a + b, without) == Filter(a, without) + Filter(b, without)
  {
    if a == [] {
      assert a + b == b;
    } else {
      assert (a + b)[0] == a[0] && (a + b)[1..] == a[1..] + b;
      FilterAppend(a[1..], b, without);
    }
  }

  lemma {:induction false} FilterSteps(keys: seq<string>, a: set<string>, k: string)
    ensures Filter(Filter(keys, a), {k}) == Filter(keys, a + {k})
  {
    if keys == [] {
    } else {
      FilterSteps(keys[1..], a, k);
      var rest := Filter(keys[1..], a);
      if keys[0] !in a {
        assert Filter(keys, a) == [keys[0]] + rest;
        assert ([keys[0]] + rest)[1..] == rest;
      } else {
        assert Filter(keys, a) == rest;
      }
    }
  }

  lemma {:induction false} FilterNone(keys: seq<string>, without: set<string>)
    requires forall k :: k in keys ==> k !in without
    ensures Filter(keys, without) == keys
  {
    if keys == [] {
    } else {
      FilterNone(keys[1..], without);
    }
  }

  lemma {:induction false} FilterAll(keys: seq<string>, without: set<string>)
    requires forall k :: k in keys ==> k in without
    ensures Filter(keys, without) == []
  {
    if keys == [] {
    } else {
      FilterAll(keys[1..], without);
    }
  }

  lemma MinusSteps(p: Props, a: set<string>, k: string)
    ensures Minus(Minus(p, a), {k}) == Minus(p, a + {k})
  {
    FilterSteps(p.keys, a, k);
    assert p.values - a - {k} == p.values - (a + {k});
  }

  lemma MinusValid(p: Props, ks: set<string>)
    requires Valid(p)
    ensures Valid(Minus(p, ks))
  {
    FilterMembers(p.keys, ks);
  }

  lemma MergeValid(p: Props, q: Props)
    requires Valid(p) && Valid(q)
    ensures Valid(Merge(p, q))
  {
    FilterMembers(q.keys, set k | k in p.keys);
    var more := Filter(q.keys, set k | k in p.keys);
    assert forall i :: 0 <= i < |more| ==> more[i] in more;
    assert forall i :: 0 <= i < |p.keys| ==> p.keys[i] in p.keys;
  }

  // ----------------------------------------------------------------- layers

  /** Keys of the defaults that the user's list already has, and that `Build` deletes from the defaults. */
  function Shadowed(initial: Props, defaults: Props): set<string> {
    set k | k in defaults.keys && k in initial.values
  }

  /** What `Build` returns from three separate lists. */
  function Built(initial: Props, defaults: Props, immutable: Props): Props {
    Merge(Merge(initial, Minus(defaults, Shadowed(initial, defaults))), immutable)
  }

  /** Main theorem: immutable before initial before default, and no key lost or invented. */
  lemma LayeringLaw(initial: Props, defaults: Props, immutable: Props, k: string)
    requires Valid(initial) && Valid(defaults) && Valid(immutable)
    ensures k in Built(initial, defaults, immutable).values <==>
            k in immutable.values || k in initial.values || k in defaults.values
    ensures k in Built(initial, defaults, immutable).values ==>
              Built(initial, defaults, immutable).values[k] ==
              if k in immutable.values then immutable.values[k]
              else if k in initial.values then initial.values[k]
              else defaults.values[k]
    ensures k in Built(initial, defaults, immutable).keys <==>
            k in immutable.keys || k in initial.keys || k in defaults.keys
    ensures Valid(Built(initial, defaults, immutable))
  {
    var rest := Minus(defaults, Shadowed(initial, defaults));
    MinusValid(defaults, Shadowed(initial, defaults));
    MergeValid(initial, rest);
    MergeValid(Merge(initial, rest), immutable);
  }

  lemma MergeAbsorbed(p: Props, q: Props)
    requires Valid(p) && Valid(q) && forall k :: k in q.values ==> Get(p, k) == Get(q, k)
    ensures Merge(p, q) == p
  {
    FilterAll(q.keys, set k | k in p.keys);
  }

  /** Building again, from what the first build left, returns the same keys, order and values. */
  lemma BuildTwice(initial: Props, defaults: Props, immutable: Props)
    requires Valid(initial) && Valid(defaults) && Valid(immutable)
    ensures
      var built := Built(initial, defaults, immutable);
      Built(built, Minus(defaults, Shadowed(initial, defaults)), immutable) == built
  {
    var built := Built(initial, defaults, immutable);
    var rest := Minus(defaults, Shadowed(initial, defaults));
    forall k ensures Get(built, k) == if k in immutable.values then Get(immutable, k)
                                      else if k in initial.values then Get(initial, k) else Get(defaults, k)
             ensures k in built.keys <==> k in built.values {
      LayeringLaw(initial, defaults, immutable, k);
    }
    LayeringLaw(initial, defaults, immutable, "");
    MinusValid(defaults, Shadowed(initial, defaults));
    var again := Minus(rest, Shadowed(built, rest));
    MinusValid(rest, Shadowed(built, rest));
    assert forall k :: k !in again.values;
    MergeAbsorbed(built, again);
    MergeAbsorbed(built, immutable);
  }

  /** The keys in order: the user's, then the defaults' new ones, then the immutable ones still new. */
  lemma KeyOrder(initial: Props, defaults: Props, immutable: Props)
    requires Valid(initial) && Valid(defaults) && Valid(immutable)
    ensures Built(initial, defaults, immutable).keys ==
            initial.keys
            + Filter(defaults.keys, set k | k in initial.keys)
            + Filter(immutable.keys, (set k | k in initial.keys) + (set k | k in defaults.keys))
  {
    var gone := Shadowed(initial, defaults);
    var own := set k | k in initial.keys;
    var rest := Minus(defaults, gone);
    FilterMembers(defaults.keys, gone);
    FilterNone(rest.keys, own);
    FilterSame(defaults.keys, gone, own);
    FilterMembers(defaults.keys, own);
    assert (set k | k in Merge(initial, rest).keys) == own + (set k | k in defaults.keys);
  }

  lemma {:induction false} FilterSame(keys: seq<string>, a: set<string>, b: set<string>)
    requires forall k :: k in keys ==> (k in a <==> k in b)
    ensures Filter(keys, a) == Filter(keys, b)
  {
    if keys == [] {
    } else {
      FilterSame(keys[1..], a, b);
    }
  }

  // --------------------------------------------------------------- aliasing

  /** Defaults that are the user's own list: `Build` deletes every key of it before merging. */
  function BuiltFromItself(shared: Props, immutable: Props): Props {
    Merge(Merge(Minus(shared, set k | k in shared.keys), Minus(shared, set k | k in shared.keys)), immutable)
  }

  /** The layering law survives that aliasing exactly when the immutable list covers the shared one. */
  lemma AliasedLayeringIff(shared: Props, immutable: Props)
    requires Valid(shared) && Valid(immutable)
    ensures (forall k :: Get(BuiltFromItself(shared, immutable), k) ==
                           if k in immutable.values then Get(immutable, k) else Get(shared, k))
            <==> (forall k :: k in shared.keys ==> k in immutable.keys)
  {
    var built := BuiltFromItself(shared, immutable);
    var none := Minus(shared, set k | k in shared.keys);
    assert none.values == map[];
    assert built.values == immutable.values;
    if k :| k in shared.keys && k !in immutable.keys {
      assert Get(built, k) != Get(shared, k);
    }
  }

  /** Defaults that are also the immutable list: what the user set is deleted from both. */
  lemma SharedDefaultsIff(initial: Props, shared: Props)
    requires Valid(initial) && Valid(shared)
    ensures
      var built := Built(initial, shared, Minus(shared, Shadowed(initial, shared)));
      (forall k :: k in shared.values ==> Get(built, k) == Get(shared, k))
      <==> (forall k :: k in shared.values && k in initial.values ==> initial.values[k] == shared.values[k])
  {
    var rest := Minus(shared, Shadowed(initial, shared));
    var built := Built(initial, shared, rest);
    MinusValid(shared, Shadowed(initial, shared));
    forall k | k in shared.values
      ensures Get(built, k) == if k in initial.values then Get(initial, k) else Get(shared, k) {
      LayeringLaw(initial, shared, rest, k);
    }
    if forall k :: k in shared.values ==> Get(built, k) == Get(shared, k) {
      forall k | k in shared.values && k in initial.values ensures initial.values[k] == shared.values[k] {
        assert Get(built, k) == Get(shared, k);
      }
    }
  }

  // ------------------------------------------------------------- imperative

  /** A property list in memory; lists are shared by reference. */
  class Properties {
    var values: map<string, string>
    var keys: seq<string>
    var disableExpansion: bool

    ghost function Value(): Props
      reads this
    {
      Props(values, keys)
    }

    constructor ()
      ensures Value() == EMPTY && !disableExpansion
    {
      values, keys, disableExpansion := map[], [], false;
    }

    method DeleteKey(k: string)
      modifies this`values, this`keys
      ensures Value() == Minus(old(Value()), {k})
    {
      values, keys := values - {k}, Filter(keys, {k});
    }

    method MergeFrom(other: Properties)
      modifies this`values, this`keys
      ensures Value() == Merge(old(Value()), old(other.Value()))
    {
      values, keys := values + other.values, keys + Filter(other.keys, set k | k in keys);
    }
  }

  ghost predicate ValidList(p: Properties?)
    reads p
  {
    p != null ==> Valid(p.Value())
  }

  /** The value of a list that may be absent. */
  ghost function ValueOf(p: Properties?): Props
    reads p
  {
    if p == null then EMPTY else p.Value()
  }

  class ApplicationPropertiesBuilder {
    var initialProperties: Properties?
    var immutableProperties: Properties?
    var defaultManagedProperties: Properties?

    constructor ()
      ensures initialProperties == null && immutableProperties == null && defaultManagedProperties == null
    {
      initialProperties, immutableProperties, defaultManagedProperties := null, null, null;
    }

    method WithInitialProperties(p: Properties?)
      modifies this`initialProperties
      ensures initialProperties == p
    {
      initialProperties := p;
    }

    method WithImmutableProperties(p: Properties?)
      modifies this`immutableProperties
      ensures immutableProperties == p
    {
      immutableProperties := p;
    }

    method WithDefaultManagedProperties(p: Properties?)
      modifies this`defaultManagedProperties
      ensures defaultManagedProperties == p
    {
      defaultManagedProperties := p;
    }

    /**
     The user's list is changed in place and returned. With defaults that are a
     list of their own the result is the layered one; the other two clauses say
     what sharing the defaults with either list does.
     */
    method Build() returns (props: Properties)
      requires ValidList(initialProperties) && ValidList(immutableProperties) && ValidList(defaultManagedProperties)
      modifies initialProperties, defaultManagedProperties
      ensures if old(initialProperties) == null then fresh(props) else props == old(initialProperties)
      ensures props.disableExpansion
      ensures var i, d, m := initialProperties, defaultManagedProperties, immutableProperties;
        && (d == null || (d != i && d != m) ==>
              && props.Value() == Built(old(ValueOf(i)), old(ValueOf(d)), old(ValueOf(m)))
              && ValueOf(d) == Minus(old(ValueOf(d)), Shadowed(old(ValueOf(i)), old(ValueOf(d))))
              && (m != i ==> ValueOf(m) == old(ValueOf(m))))
        && (d != null && d == i ==>
              props.Value() == BuiltFromItself(old(ValueOf(i)), if m == i then EMPTY else old(ValueOf(m))))
        && (d != null && d == m && d != i ==>
              props.Value() == Built(old(ValueOf(i)), old(ValueOf(d)),
                                     Minus(old(ValueOf(d)), Shadowed(old(ValueOf(i)), old(ValueOf(d))))))
    {
      ghost var i0, d0 := ValueOf(initialProperties), ValueOf(defaultManagedProperties);
      if initialProperties != null { props := initialProperties; } else { props := new Properties(); }
      props.disableExpansion := true;
      MergeNothing(i0);
      if defaultManagedProperties != null {
        DropShadowed(props, defaultManagedProperties);
        props.MergeFrom(defaultManagedProperties);
      }
      ghost var mid := props.Value();
      MergeNothing(mid);
      if immutableProperties != null { props.MergeFrom(immutableProperties); }
      if immutableProperties != null && immutableProperties == initialProperties {
        assert props.Value() == Merge(mid, mid);
        MergeOwn(i0, d0);
        MergeEmptied(i0);
      }
      if defaultManagedProperties != null && defaultManagedProperties == initialProperties { MergeEmptied(i0); }
    }
  }

  /** The deletion loop over the defaults' keys. */
  method DropShadowed(props: Properties, defaults: Properties)
    requires Valid(props.Value()) && Valid(defaults.Value())
    modifies defaults`values, defaults`keys
    ensures defaults.Value() == Minus(old(defaults.Value()), Shadowed(old(props.Value()), old(defaults.Value())))
  {
    ghost var own, start := props.Value(), defaults.Value();
    var ks := defaults.keys;
    FilterNone(start.keys, {});
    assert ShadowedBelow(own, ks, 0) == {} && start.values - {} == start.values;
    for i := 0 to |ks|
      invariant defaults.Value() == Minus(start, ShadowedBelow(own, ks, i))
      invariant props != defaults ==> props.Value() == own
    {
      ShadowedStep(own, ks, i);
      if ks[i] in props.values {
        assert ks[i] in own.values;
        MinusSteps(start, ShadowedBelow(own, ks, i), ks[i]);
        defaults.DeleteKey(ks[i]);
      } else {
        assert ks[i] in start.keys;
        assert ks[i] !in own.values;
        assert ShadowedBelow(own, ks, i + 1) == ShadowedBelow(own, ks, i);
      }
    }
    assert ShadowedBelow(own, ks, |ks|) == Shadowed(own, start);
  }

  /** The shadowed keys among the first `i`. */
  ghost function ShadowedBelow(own: Props, ks: seq<string>, i: nat): set<string>
    requires i <= |ks|
  {
    set k | k in ks[..i] && k in own.values
  }

  lemma ShadowedStep(own: Props, ks: seq<string>, i: nat)
    requires i < |ks| && forall a, b :: 0 <= a < b < |ks| ==> ks[a] != ks[b]
    ensures ks[i] !in ShadowedBelow(own, ks, i)
    ensures ShadowedBelow(own, ks, i + 1) == ShadowedBelow(own, ks, i) + if ks[i] in own.values then {ks[i]} else {}
  {
    assert ks[..i + 1] == ks[..i] + [ks[i]];
  }

  lemma MergeNothing(p: Props)
    ensures Merge(p, EMPTY) == p
    ensures Minus(EMPTY, Shadowed(p, EMPTY)) == EMPTY
  {
    assert EMPTY.values - Shadowed(p, EMPTY) == map[];
  }

  /** Merging a list with the one it grew from, or with itself, changes nothing. */
  lemma MergeOwn(initial: Props, defaults: Props)
    requires Valid(initial) && Valid(defaults)
    ensures
      var mid := Merge(initial, Minus(defaults, Shadowed(initial, defaults)));
      Merge(mid, initial) == mid && Merge(mid, mid) == mid
  {
    var mid := Merge(initial, Minus(defaults, Shadowed(initial, defaults)));
    MinusValid(defaults, Shadowed(initial, defaults));
    MergeValid(initial, Minus(defaults, Shadowed(initial, defaults)));
    MergeAbsorbed(mid, initial);
    MergeAbsorbed(mid, mid);
  }

  /** Defaults that are the user's own list are emptied, and merging nothing with nothing stays nothing. */
  lemma MergeEmptied(shared: Props)
    requires Valid(shared)
    ensures Shadowed(shared, shared) == set k | k in shared.keys
    ensures
      var none := Minus(shared, Shadowed(shared, shared));
      none == EMPTY && Merge(none, none) == EMPTY
  {
    FilterAll(shared.keys, Shadowed(shared, shared));
    assert shared.values - Shadowed(shared, shared) == map[];
  }
}

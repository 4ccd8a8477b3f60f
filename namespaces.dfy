/** The six attribute tiers of a collab entity and the `<tag>db` holder
    properties generated for them (typeclasses.py, the handler classes and
    the loop that installs `getter`, `setter` and `deleter`). */
module Namespaces {
  import opened Common

  /** One attribute tier per handler class, in the order of `initializers`. */
  datatype Tier = WizHidden | Wiz | ImmortalHidden | Public | User | UserHidden

  /** The handler class's `_attrtype`. */
  function Tag(t: Tier): (r: string)
    ensures 3 <= |r| <= 4
  {
    match t
    case WizHidden => "wizh"
    case Wiz => "wiz"
    case ImmortalHidden => "imh"
    case Public => "pub"
    case User => "usr"
    case UserHidden => "usrh"
  }

  /** The property name, also used in the holder's error messages. */
  function Label(t: Tier): string { Tag(t) + "db" }

  /** The name of the lazily built attribute handler behind the holder. */
  function AttributesName(t: Tier): string { Tag(t) + "attributes" }

  /** `initializers`: the handler classes the properties are generated from. */
  const Initializers: seq<Tier> := [WizHidden, Wiz, ImmortalHidden, Public, User, UserHidden]

  /** Every tier gets exactly one property: the six initialisers are
      pairwise distinct and cover every tier. */
  lemma InitializersEnumerateTiers()
    ensures |Initializers| == 6
    ensures forall t: Tier :: t in Initializers
    ensures forall i, j :: 0 <= i < j < |Initializers| ==> Initializers[i] != Initializers[j]
  {
    forall t: Tier ensures t in Initializers {
      match t
      case WizHidden => assert Initializers[0] == t;
      case Wiz => assert Initializers[1] == t;
      case ImmortalHidden => assert Initializers[2] == t;
      case Public => assert Initializers[3] == t;
      case User => assert Initializers[4] == t;
      case UserHidden => assert Initializers[5] == t;
    }
  }

  /** No two tiers share a label, so no two share a property or a handler. */
  lemma LabelsDistinct(t: Tier, u: Tier)
    requires t != u
    ensures Label(t) != Label(u)
    ensures AttributesName(t) != AttributesName(u)
  {
    assert Label(t)[..|Tag(t)|] == Tag(t);
    assert AttributesName(t)[..|Tag(t)|] == Tag(t);
    match t
    case WizHidden => assert u == Wiz ==> Label(t)[3] != Label(u)[3];
    case Wiz => assert u == WizHidden ==> Label(t)[3] != Label(u)[3];
    case UserHidden => assert u == User ==> Label(t)[3] != Label(u)[3];
    case User => assert u == UserHidden ==> Label(t)[3] != Label(u)[3];
    case _ =>
  }

  /** The contents of the six handlers of one entity. */
  type Stores = map<Tier, map<string, Value>>

  /** Reading `key` through a tier's holder: a missing key reads as `None`. */
  function Get(s: Stores, t: Tier, key: string): Value
  {
    if t in s && key in s[t] then s[t][key] else VNone
  }

  /** Writing `key` through a tier's holder. */
  function Put(s: Stores, t: Tier, key: string, v: Value): (r: Stores)
    ensures r.Keys == s.Keys + {t}
  {
    s[t := (if t in s then s[t] else map[])[key := v]]
  }

  /** The tiers are storage-disjoint: a write through one tier is read back
      there and is invisible through every other tier and every other key. */
  lemma {:induction false} GetPut(s: Stores, t: Tier, key: string, v: Value, u: Tier, k: string)
    ensures Get(Put(s, t, key, v), u, k) == if u == t && k == key then v else Get(s, u, k)
  {
    var r := Put(s, t, key, v);
    if u != t {
      if u in s { assert r[u] == s[u]; } else { assert u !in r; }
    }
  }

  /** Assigning to `obj.<tag>db`: the generated setter takes only `self`, so
      Python rejects the call for its arity before the labelled message is
      built. The holder is left in place, since nothing is assigned. */
  function AssignDb(t: Tier): (e: Exc)
    ensures e.typeName == "TypeError"
    ensures e != AssignDbIntended(t)
  {
    Exc("TypeError", "setter() takes exactly 1 argument (2 given)")
  }

  /** What the setter evidently means to raise: the labelled instruction. */
  function AssignDbIntended(t: Tier): (e: Exc)
    ensures |e.message| > 26 + |Label(t)| && e.message[26..26 + |Label(t)|] == Label(t)
  {
    Exc("Exception", "Cannot assign directly to " + Label(t) + " object! Use " + Label(t) + ".attr=value instead.")
  }

  /** Deleting `obj.<tag>db` always fails with a message naming the label. */
  function DeleteDb(t: Tier): (e: Exc)
    ensures e.typeName == "Exception"
    ensures |e.message| == 26 + |Label(t)| && e.message[18..18 + |Label(t)|] == Label(t)
  {
    Exc("Exception", "Cannot delete the " + Label(t) + " object!")
  }

  /** The namespace component of one entity: the six attribute handlers
      (their contents) and the memoised `_<tag>_holder` objects. */
  class NamespaceSet {
    const obj: Ref
    var stores: Stores
    var holders: map<Tier, Holder>

    ghost predicate Valid()
      reads this
    {
      && (forall t: Tier :: t in stores)
      && (forall t :: t in holders ==> holders[t].ns == this && holders[t].tier == t)
    }

    /** An entity as loaded: its stored attributes, no holder built yet. */
    constructor (obj: Ref, stores: Stores)
      requires forall t: Tier :: t in stores
      ensures Valid()
      ensures this.obj == obj && this.stores == stores && holders == map[]
    {
      this.obj := obj;
      this.stores := stores;
      holders := map[];
    }

    /** The `<tag>db` getter: the first access builds and memoises the
        holder, every later access returns that same holder. */
    method Db(t: Tier) returns (h: Holder)
      requires Valid()
      modifies this`holders
      ensures Valid()
      ensures h.ns == this && h.tier == t && t in holders && holders[t] == h
      ensures old(t in holders) ==> h == old(holders[t]) && holders == old(holders)
      ensures old(t !in holders) ==> fresh(h) && holders == old(holders)[t := h]
    {
      if t in holders {
        h := holders[t];
      } else {
        h := new Holder(this, t);
        holders := holders[t := h];
      }
    }
  }

  /** `DbHolder`: attribute access on one tier of one entity. */
  class Holder {
    const ns: NamespaceSet
    const tier: Tier

    constructor (ns: NamespaceSet, tier: Tier)
      ensures this.ns == ns && this.tier == tier
    {
      this.ns := ns;
      this.tier := tier;
    }

    /** `holder.key`: the value stored under `key` in this tier, or `None`. */
    function Attr(key: string): (v: Value)
      reads ns
    {
      Get(ns.stores, tier, key)
    }

    /** `holder.key = v`: stores `v` in this tier and in no other. */
    method SetAttr(key: string, v: Value)
      requires ns.Valid()
      modifies ns`stores
      ensures ns.Valid()
      ensures ns.stores == Put(old(ns.stores), tier, key, v)
      ensures forall u :: u != tier ==> ns.stores[u] == old(ns.stores[u])
      ensures Attr(key) == v
    {
      ns.stores := Put(ns.stores, tier, key, v);
    }
  }

  /** Two reads of `<tag>db` yield one and the same holder. */
  method DbIsMemoised(ns: NamespaceSet, t: Tier) returns (first: Holder, second: Holder)
    requires ns.Valid()
    modifies ns`holders
    ensures ns.Valid()
    ensures first == second && t in ns.holders && ns.holders[t] == first
    ensures old(t !in ns.holders) ==> fresh(first)
  {
    first := ns.Db(t);
    second := ns.Db(t);
  }
}

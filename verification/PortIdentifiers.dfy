/**
  The registry's identifier objects (gnu-io/src/main/java/gnu/io/CommPortIdentifier.java,
  CommPort.java) and what one operation does to them.

  A world is the list the registry reaches and the fields of every identifier object ever
  made, whether or not the registry still reaches it: clients keep references.
 */
module PortIdentifiers {
  import opened Options
  import opened Sequences

  type Driver = nat
  type Port = nat
  type Listener = nat

  /** A name and a type, as the driver reports them. */
  datatype Entry = Entry(name: string, ptype: int)

  class Identifier {
    const name: string
    const ptype: int
    var driver: Driver
    var available: bool
    var owner: Option<string>
    var port: Option<Port>
    var listeners: seq<Listener>
    var next: Identifier?

    constructor (e: Entry, driver: Driver)
      ensures Is(this, e) && next == null && Now() == NewFields(driver)
    {
      name, ptype, this.driver := e.name, e.ptype, driver;
      available, owner, port, listeners, next := true, None, None, [], null;
    }

    ghost function Now(): Fields
      reads this`driver, this`available, this`owner, this`port, this`listeners
    {
      Fields(driver, available, owner, port, listeners)
    }

    /** `internalClosePort`. */
    method InternalClosePort()
      modifies this`owner, this`available, this`port
      ensures Now() == Released(old(Now()))
    {
      owner := None;
      available := true;
      port := None;
    }
  }

  predicate Is(x: Identifier, e: Entry) {
    x.name == e.name && x.ptype == e.ptype
  }

  datatype Fields = Fields(
    driver: Driver, available: bool, owner: Option<string>, port: Option<Port>, listeners: seq<Listener>)

  function NewFields(driver: Driver): Fields {
    Fields(driver, true, None, None, [])
  }

  function Released(f: Fields): Fields {
    f.(available := true, owner := None, port := None)
  }

  ghost predicate DistinctNames(entries: seq<Entry>) {
    forall i, j :: 0 <= i < j < |entries| ==> entries[i].name != entries[j].name
  }

  // ---------- One operation ----------

  /** The list the registry reaches, and the fields of every identifier ever made. */
  datatype World = World(list: seq<Identifier>, fields: map<Identifier, Fields>, made: set<Port>)

  /** The old identifier for each name; the last one wins. */
  function ByName(list: seq<Identifier>): (m: map<string, Identifier>)
    ensures forall n <- m :: m[n] in list && m[n].name == n
  {
    if list == [] then map[]
    else ByName(list[..|list| - 1])[list[|list| - 1].name := list[|list| - 1]]
  }

  /** The old identifier that takes the place of a reported entry. */
  function Kept(list: seq<Identifier>, e: Entry): (x: Option<Identifier>)
    ensures x.Some? ==> x.value in list && Is(x.value, e)
  {
    var named := ByName(list);
    if e.name in named && named[e.name].ptype == e.ptype then Some(named[e.name]) else None
  }

  /** What is kept for each reported position. */
  function KeptAt(list: seq<Identifier>, reported: seq<Entry>): (kept: seq<Option<Identifier>>)
    ensures |kept| == |reported|
    ensures forall i :: 0 <= i < |kept| ==> kept[i] == Kept(list, reported[i])
  {
    seq(|reported|, i requires 0 <= i < |reported| => Kept(list, reported[i]))
  }

  /** The first identifier in the list that holds a CommPort. */
  function Holder(list: seq<Identifier>, fields: map<Identifier, Fields>, p: Port): (x: Option<Identifier>)
    requires forall y <- list :: y in fields
    ensures x.Some? ==> x.value in list && fields[x.value].port == Some(p)
    ensures x.None? ==> forall y <- list :: fields[y].port != Some(p)
  {
    if list == [] then None
    else if fields[list[0]].port == Some(p) then Some(list[0])
    else Holder(list[1..], fields, p)
  }

  /** `x` stands for a reported entry: the old identifier if there is one, else a new one. */
  ghost predicate Stands(w: World, fields: map<Identifier, Fields>, e: Entry, x: Identifier, driver: Driver) {
    && Is(x, e) && x in fields && fields[x].driver == driver
    && (Kept(w.list, e).Some? ==> x == Kept(w.list, e).value)
    && (Kept(w.list, e).None? ==> x !in w.fields && fields[x] == NewFields(driver))
  }

  /** Everything that a refresh leaves alone; objects that it made are as new. */
  ghost predicate OthersKept(w: World, v: World) {
    && v.made == w.made
    && (forall x <- v.fields :: x !in w.fields ==> v.fields[x] == NewFields(v.fields[x].driver))
    && (forall x <- w.fields :: x in v.fields && v.fields[x] ==
          if x in v.list then w.fields[x].(driver := v.fields[x].driver) else w.fields[x])
  }

  /** A refresh: the list is the driver's enumeration, old objects kept where possible. */
  ghost predicate Refreshed(w: World, v: World, reported: seq<Entry>, driver: Driver) {
    && |v.list| == |reported| && Distinct(v.list) && OthersKept(w, v)
    && (forall i :: 0 <= i < |reported| ==> Stands(w, v.fields, reported[i], v.list[i], driver))
  }

  /** A refresh whose driver throws half way: no old object is restored. */
  ghost predicate Aborted(w: World, v: World, reported: seq<Entry>, driver: Driver) {
    && |v.list| == |reported| && Distinct(v.list) && OthersKept(w, v)
    && (forall i :: 0 <= i < |reported| ==>
          Is(v.list[i], reported[i]) && v.list[i] !in w.fields &&
          v.list[i] in v.fields && v.fields[v.list[i]] == NewFields(driver))
  }

  function Heard(ls: seq<Listener>, l: Listener): seq<Listener> {
    if l in ls then ls else ls + [l]
  }

  function Unheard(ls: seq<Listener>, l: Listener): seq<Listener> {
    if ls == [] then [] else if ls[0] == l then ls[1..] else [ls[0]] + Unheard(ls[1..], l)
  }

  /** Adding a listener adds that one, once; removing it takes that one away. */
  lemma {:induction false} ListenersAre(ls: seq<Listener>, l: Listener, m: Listener)
    requires Distinct(ls)
    ensures Distinct(Heard(ls, l)) && (m in Heard(ls, l) <==> m in ls || m == l)
    ensures Distinct(Unheard(ls, l)) && (m in Unheard(ls, l) <==> m in ls && m != l)
  {
    if ls != [] {
      ListenersAre(ls[1..], l, m);
      ListenersAre(ls[1..], l, ls[0]);
      assert ls[0] !in ls[1..];
      assert ls == [ls[0]] + ls[1..];
    }
  }

  ghost function WithListeners(w: World, x: Identifier, ls: seq<Listener>): World
    requires x in w.fields
  {
    w.(fields := w.fields[x := w.fields[x].(listeners := ls)])
  }

  ghost predicate Listed(w: World) {
    forall x <- w.list :: x in w.fields
  }

  function AfterClose(w: World, p: Port): World
    requires forall x <- w.list :: x in w.fields
  {
    match Holder(w.list, w.fields, p)
    case None => w
    case Some(x) => w.(fields := w.fields[x := Released(w.fields[x])])
  }

  // ---------- Which identifier a refresh keeps ----------

  ghost predicate NamesDiffer(list: seq<Identifier>) {
    forall i, j :: 0 <= i < j < |list| ==> list[i].name != list[j].name
  }

  /** Of several identifiers with one name the last one is remembered. */
  lemma {:induction false} ByNameHolds(list: seq<Identifier>, k: nat)
    requires k < |list| && forall j :: k < j < |list| ==> list[j].name != list[k].name
    ensures list[k].name in ByName(list) && ByName(list)[list[k].name] == list[k]
    decreases |list|
  {
    var last := |list| - 1;
    if k < last {
      assert list[k].name != list[last].name;
      ByNameHolds(list[..last], k);
    }
  }

  /** A name is remembered if and only if some identifier has it. */
  lemma {:induction false} ByNameKnows(list: seq<Identifier>, n: string)
    ensures n in ByName(list) <==> exists x <- list :: x.name == n
    decreases |list|
  {
    if list != [] {
      var last := |list| - 1;
      ByNameKnows(list[..last], n);
      assert list == list[..last] + [list[last]];
    }
  }

  /** Whatever the names: an entry keeps the last identifier of its name, if the types agree. */
  lemma LastOfNameIsKept(list: seq<Identifier>, e: Entry, k: nat)
    requires k < |list| && list[k].name == e.name && forall j :: k < j < |list| ==> list[j].name != e.name
    ensures Kept(list, e) == if list[k].ptype == e.ptype then Some(list[k]) else None
  {
    ByNameHolds(list, k);
  }

  /** With different names in the list, an entry keeps exactly the identifier that has its
      name and type. */
  lemma KeptExactly(list: seq<Identifier>, e: Entry, x: Identifier)
    requires NamesDiffer(list)
    ensures Kept(list, e) == Some(x) <==> x in list && Is(x, e)
  {
    if x in list && Is(x, e) {
      var k :| 0 <= k < |list| && list[k] == x;
      ByNameHolds(list, k);
    }
  }
}

/**
  What opens, closes and refreshes do to the registry over whole runs
  (gnu-io/src/main/java/gnu/io/CommPortIdentifier.java, CommPort.java), with any
  enumerations, repeated names included.

  A step is a call that returns. On a list that loops a refresh does not, and neither does a
  close whose CommPort no listed identifier holds. An open is one step here; its inner steps
  are the subject of module PortOwnership.
 */
module PortRuns {
  import opened Options
  import opened Sequences
  import opened SpliceOrder
  import opened PortIdentifiers
  import opened SpliceLinks

  /** `looped`: the last identifier of the list points to itself. */
  datatype State = State(world: World, looped: bool)

  /** `added` are the new objects that the driver's enumeration makes. */
  datatype Step =
    | Open(x: Identifier, owner: string, port: Port)
    | Listen(x: Identifier, listener: Listener)
    | Unlisten(x: Identifier, listener: Listener)
    | Close(port: Port)
    | Refresh(reported: seq<Entry>, added: seq<Identifier>, driver: Driver)
    | Abort(reported: seq<Entry>, driver: Driver)

  /** The driver makes a new CommPort every time; a port in use is refused. */
  ghost predicate Opened(w: World, v: World, x: Identifier, owner: string, port: Port) {
    && x in w.fields && port !in w.made
    && v == if !w.fields[x].available then w
            else w.(fields := w.fields[x := w.fields[x].(available := false, owner := Some(owner), port := Some(port))],
                    made := w.made + {port})
  }

  ghost predicate Next(s: State, step: Step, t: State) {
    var w, v := s.world, t.world;
    && Listed(w)
    && match step
       case Open(x, owner, port) => Opened(w, v, x, owner, port) && t.looped == s.looped
       case Listen(x, listener) =>
         x in w.fields && v == WithListeners(w, x, Heard(w.fields[x].listeners, listener)) && t.looped == s.looped
       case Unlisten(x, listener) =>
         x in w.fields && v == WithListeners(w, x, Unheard(w.fields[x].listeners, listener)) && t.looped == s.looped
       case Close(port) =>
         && (s.looped ==> Holder(w.list, w.fields, port).Some?)
         && v == AfterClose(w, port) && t.looped == s.looped
       case Refresh(reported, added, driver) =>
         && !s.looped && |added| == |reported| && Respliced(w, v, reported, added, driver)
         && t.looped == Loops(KeptAt(w.list, reported))
       case Abort(reported, driver) =>
         !s.looped && Aborted(w, v, reported, driver) && !t.looped
  }

  /** An open of a free identifier makes the caller its owner through the new CommPort; of one
      in use it changes nothing; no other identifier and no other field changes. */
  lemma OpenMakesOwner(s: State, t: State, x: Identifier, owner: string, port: Port)
    requires Next(s, Open(x, owner, port), t)
    ensures var f, g := s.world.fields[x], t.world.fields[x];
      && (f.available ==> !g.available && g.owner == Some(owner) && g.port == Some(port) && port in t.world.made)
      && (!f.available ==> t == s)
      && g.driver == f.driver && g.listeners == f.listeners && t.world.list == s.world.list
    ensures t.world.fields.Keys == s.world.fields.Keys
    ensures forall y <- s.world.fields :: y != x ==> t.world.fields[y] == s.world.fields[y]
  {
  }

  // ---------- What every step keeps ----------

  /** A port that is free has neither owner nor CommPort, and no two identifiers, reached or
      not, have the same CommPort. */
  ghost predicate Inv(w: World) {
    && Listed(w)
    && (forall x <- w.fields :: w.fields[x].available <==> w.fields[x].port.None?)
    && (forall x <- w.fields :: w.fields[x].available ==> w.fields[x].owner.None?)
    && (forall x <- w.fields :: w.fields[x].port.Some? ==> w.fields[x].port.value in w.made)
    && (forall x, y :: x in w.fields && y in w.fields && x != y && w.fields[x].port.Some? ==>
          w.fields[x].port != w.fields[y].port)
  }

  /** Old identifiers keep everything but the driver, and new ones are as made. */
  ghost predicate OnlyDrivers(w: World, v: World) {
    && v.made == w.made
    && (forall x <- w.fields :: x in v.fields && v.fields[x] == w.fields[x].(driver := v.fields[x].driver))
    && (forall x <- v.fields :: x !in w.fields ==> v.fields[x] == NewFields(v.fields[x].driver))
  }

  lemma RelistKeepsInv(w: World, v: World)
    requires Inv(w) && OnlyDrivers(w, v) && Listed(v)
    ensures Inv(v)
  {
  }

  lemma ResplicedKeeps(w: World, v: World, reported: seq<Entry>, added: seq<Identifier>, driver: Driver)
    requires Listed(w) && |added| == |reported| && Respliced(w, v, reported, added, driver)
    ensures OnlyDrivers(w, v) && Listed(v)
  {
    forall m | 0 <= m < |v.list|
      ensures v.list[m] in v.fields
    {
      var p := Walk(KeptAt(w.list, reported), 0)[m];
      assert v.list[m] == Chosen(KeptAt(w.list, reported), added)[p];
    }
  }

  lemma StepKeepsInv(s: State, step: Step, t: State)
    requires Inv(s.world) && Next(s, step, t)
    ensures Inv(t.world)
  {
    match step
    case Open(_, _, _) =>
    case Listen(_, _) =>
    case Unlisten(_, _) =>
    case Close(_) =>
    case Refresh(reported, added, driver) =>
      ResplicedKeeps(s.world, t.world, reported, added, driver);
      RelistKeepsInv(s.world, t.world);
    case Abort(_, _) =>
      RelistKeepsInv(s.world, t.world);
  }

  /** A run: the states before, between and after the steps. */
  ghost predicate Run(states: seq<State>, steps: seq<Step>) {
    && |states| == |steps| + 1
    && (forall i :: 0 <= i < |steps| ==> Next(states[i], steps[i], states[i + 1]))
  }

  lemma {:induction false} RunKeepsInv(states: seq<State>, steps: seq<Step>, k: nat)
    requires Run(states, steps) && Inv(states[0].world) && k <= |steps|
    ensures Inv(states[k].world)
  {
    if k > 0 {
      RunKeepsInv(states, steps, k - 1);
      assert Next(states[k - 1], steps[k - 1], states[k]);
      StepKeepsInv(states[k - 1], steps[k - 1], states[k]);
    }
  }

  // ---------- One owner through a run ----------

  /** What an owner has: its name, its CommPort and the listeners. */
  datatype Session = Session(owner: Option<string>, port: Port, listeners: seq<Listener>)

  ghost predicate Owned(w: World, x: Identifier, h: Session) {
    && x in w.fields && !w.fields[x].available && w.fields[x].owner == h.owner
    && w.fields[x].port == Some(h.port) && w.fields[x].listeners == h.listeners
  }

  /** The list reaches `x`, which is owned. */
  ghost predicate Owns(w: World, x: Identifier, h: Session) {
    x in w.list && Owned(w, x, h)
  }

  /** The step neither closes the CommPort nor changes the listeners of `x`. */
  predicate Leaves(step: Step, x: Identifier, p: Port) {
    match step
    case Listen(y, _) => y != x
    case Unlisten(y, _) => y != x
    case Close(q) => q != p
    case _ => true
  }

  /** A refresh finds `x` and is not cut short. */
  ghost predicate Keeps(w: World, step: Step, x: Identifier) {
    match step
    case Refresh(reported, _, _) => Found(w.list, reported, x)
    case Abort(_, _) => false
    case _ => true
  }

  /** The session lasts, whether or not the list still reaches the identifier. */
  lemma StepKeepsSession(s: State, step: Step, t: State, x: Identifier, h: Session)
    requires Inv(s.world) && Next(s, step, t) && Owned(s.world, x, h) && Leaves(step, x, h.port)
    ensures Owned(t.world, x, h)
  {
    match step
    case Open(_, _, _) =>
    case Listen(_, _) =>
    case Unlisten(_, _) =>
    case Close(_) =>
    case Refresh(reported, added, driver) => ResplicedKeeps(s.world, t.world, reported, added, driver);
    case Abort(_, _) =>
  }

  /** The list still reaches `x` if and only if it did and the step keeps it. */
  lemma StepReaches(s: State, step: Step, t: State, x: Identifier)
    requires Next(s, step, t) && x in s.world.fields
    ensures x in t.world.list <==> x in s.world.list && Keeps(s.world, step, x)
  {
    match step
    case Open(_, _, _) =>
    case Listen(_, _) =>
    case Unlisten(_, _) =>
    case Close(_) =>
    case Refresh(reported, added, driver) =>
      StaysIffFound(s.world, t.world, reported, added, driver, x);
      assert forall e :: Kept(s.world.list, e) == Some(x) ==> x in s.world.list;
    case Abort(_, _) =>
  }

  /** In every run that does not close its CommPort, an owned identifier stays owned with the
      same owner, listeners and CommPort, and the list reaches it at the end if and only if
      every refresh on the way found it. */
  lemma {:induction false} RunKeepsOwner(states: seq<State>, steps: seq<Step>, k: nat, x: Identifier, h: Session)
    requires Run(states, steps) && Inv(states[0].world) && k <= |steps| && Owns(states[0].world, x, h)
    requires forall i :: 0 <= i < k ==> Leaves(steps[i], x, h.port)
    ensures Owned(states[k].world, x, h)
    ensures Owns(states[k].world, x, h) <==> forall i :: 0 <= i < k ==> Keeps(states[i].world, steps[i], x)
  {
    if k > 0 {
      var s, step, t := states[k - 1], steps[k - 1], states[k];
      RunKeepsOwner(states, steps, k - 1, x, h);
      RunKeepsInv(states, steps, k - 1);
      assert Next(s, step, t);
      StepKeepsSession(s, step, t, x, h);
      StepReaches(s, step, t, x);
      assert (forall i :: 0 <= i < k ==> Keeps(states[i].world, steps[i], x)) <==>
        (forall i :: 0 <= i < k - 1 ==> Keeps(states[i].world, steps[i], x)) && Keeps(s.world, step, x);
    }
  }

  /** Closing a CommPort finds the identifier that holds it and releases that one alone. */
  lemma CloseReleases(s: State, x: Identifier, h: Session)
    requires Inv(s.world) && Owns(s.world, x, h)
    ensures Next(s, Close(h.port), s.(world := s.world.(fields :=
      s.world.fields[x := s.world.fields[x].(available := true, owner := None, port := None)])))
  {
    assert Holder(s.world.list, s.world.fields, h.port) == Some(x);
  }

  /** Once the list no longer reaches an owned identifier it never does again, and nothing
      releases it. */
  lemma {:induction false} DroppedStaysOwned(states: seq<State>, steps: seq<Step>, k: nat, x: Identifier, p: Port)
    requires Run(states, steps) && Inv(states[0].world) && k <= |steps|
    requires x in states[0].world.fields && x !in states[0].world.list && states[0].world.fields[x].port == Some(p)
    ensures var w := states[k].world;
      && x in w.fields && x !in w.list && w.fields[x].port == Some(p)
      && w.fields[x].owner == states[0].world.fields[x].owner && !w.fields[x].available
  {
    if k > 0 {
      DroppedStaysOwned(states, steps, k - 1, x, p);
      RunKeepsInv(states, steps, k - 1);
      assert Next(states[k - 1], steps[k - 1], states[k]);
      DroppedStep(states[k - 1], steps[k - 1], states[k], x);
    }
  }

  lemma DroppedStep(s: State, step: Step, t: State, x: Identifier)
    requires Inv(s.world) && Next(s, step, t) && x in s.world.fields && x !in s.world.list
    requires !s.world.fields[x].available
    ensures x in t.world.fields && x !in t.world.list
    ensures t.world.fields[x] == s.world.fields[x].(listeners := t.world.fields[x].listeners, driver := t.world.fields[x].driver)
  {
    StepReaches(s, step, t, x);
    match step
    case Open(_, _, _) =>
    case Listen(_, _) =>
    case Unlisten(_, _) =>
    case Close(_) =>
    case Refresh(reported, added, driver) => ResplicedKeeps(s.world, t.world, reported, added, driver);
    case Abort(_, _) =>
  }

  /** For any enumeration: after a refresh, closing the CommPort of an owned identifier
      releases it if and only if the walk over the enumeration finds it. */
  lemma ReleasableIffFound(s: State, t: State, reported: seq<Entry>, added: seq<Identifier>, driver: Driver,
                           x: Identifier, h: Session)
    requires Inv(s.world) && Owns(s.world, x, h) && Next(s, Refresh(reported, added, driver), t)
    ensures Listed(t.world) && x in AfterClose(t.world, h.port).fields
    ensures AfterClose(t.world, h.port).fields[x].available <==> Found(s.world.list, reported, x)
  {
    var step := Refresh(reported, added, driver);
    StepKeepsInv(s, step, t);
    StepKeepsSession(s, step, t, x, h);
    StepReaches(s, step, t, x);
    if x in t.world.list {
      assert Holder(t.world.list, t.world.fields, h.port) == Some(x);
    }
  }

  // ---------- Enumerations with different names ----------

  /** No enumeration repeats a name. */
  ghost predicate Tidy(step: Step) {
    match step
    case Refresh(reported, _, _) => DistinctNames(reported)
    case Abort(reported, _) => DistinctNames(reported)
    case _ => true
  }

  lemma TidyStepKeepsNames(s: State, step: Step, t: State)
    requires NamesDiffer(s.world.list) && Next(s, step, t) && Tidy(step)
    ensures NamesDiffer(t.world.list)
  {
    match step
    case Open(_, _, _) =>
    case Listen(_, _) =>
    case Unlisten(_, _) =>
    case Close(_) =>
    case Refresh(reported, added, driver) =>
      WholeNames(s.world, t.world, reported, added, driver);
    case Abort(reported, _) =>
      assert forall i :: 0 <= i < |reported| ==> t.world.list[i].name == reported[i].name;
  }

  lemma WholeNames(w: World, v: World, reported: seq<Entry>, added: seq<Identifier>, driver: Driver)
    requires DistinctNames(reported) && |added| == |reported| && Respliced(w, v, reported, added, driver)
    ensures NamesDiffer(v.list)
  {
    DifferentNamesOnce(w.list, reported);
    WholeListing(KeptAt(w.list, reported), added);
    forall i, j | 0 <= i < j < |v.list|
      ensures v.list[i].name != v.list[j].name
    {
      ChosenNamed(w.list, reported, added, i);
      ChosenNamed(w.list, reported, added, j);
    }
  }

  /** The step still reports the name and type of `x`. */
  predicate Reports(step: Step, x: Identifier) {
    match step
    case Refresh(reported, _, _) => Entry(x.name, x.ptype) in reported
    case Abort(_, _) => false
    case _ => true
  }

  /** With different names, a refresh keeps exactly the old identifiers that it reports. */
  lemma StaysIffReported(w: World, step: Step, x: Identifier)
    requires NamesDiffer(w.list) && Tidy(step) && x in w.list
    ensures Keeps(w, step, x) <==> Reports(step, x)
  {
    if step.Refresh? {
      DifferentNamesOnce(w.list, step.reported);
      FoundIffReported(w.list, step.reported, x);
    }
  }

  /** With different names in every enumeration, an owned identifier whose name and type are
      always reported keeps its place as an object, its owner, its listeners and its CommPort
      through every run that does not close it. */
  lemma {:induction false} ReportedKeepsOwner(states: seq<State>, steps: seq<Step>, k: nat, x: Identifier, h: Session)
    requires Run(states, steps) && Inv(states[0].world) && NamesDiffer(states[0].world.list) && k <= |steps|
    requires Owns(states[0].world, x, h)
    requires forall i :: 0 <= i < k ==> Plain(steps[i], x, h.port)
    ensures Inv(states[k].world) && NamesDiffer(states[k].world.list) && Owns(states[k].world, x, h)
  {
    if k > 0 {
      ReportedKeepsOwner(states, steps, k - 1, x, h);
      assert Next(states[k - 1], steps[k - 1], states[k]);
      ReportedStep(states[k - 1], steps[k - 1], states[k], x, h);
    }
  }

  /** The step repeats no name, reports `x`, and neither closes it nor changes its listeners. */
  ghost predicate Plain(step: Step, x: Identifier, p: Port) {
    Tidy(step) && Leaves(step, x, p) && Reports(step, x)
  }

  lemma ReportedStep(s: State, step: Step, t: State, x: Identifier, h: Session)
    requires Inv(s.world) && NamesDiffer(s.world.list) && Next(s, step, t) && Owns(s.world, x, h)
    requires Plain(step, x, h.port)
    ensures Inv(t.world) && NamesDiffer(t.world.list) && Owns(t.world, x, h)
  {
    StepKeepsInv(s, step, t);
    TidyStepKeepsNames(s, step, t);
    StaysIffReported(s.world, step, x);
    StepKeepsSession(s, step, t, x, h);
    StepReaches(s, step, t, x);
  }

  /** With different names, the CommPort of an owned identifier can still be closed after a
      refresh if and only if the driver reports its name and type. */
  lemma ReleasableIffReported(s: State, t: State, reported: seq<Entry>, added: seq<Identifier>, driver: Driver,
                              x: Identifier, h: Session)
    requires Inv(s.world) && NamesDiffer(s.world.list) && DistinctNames(reported)
    requires Owns(s.world, x, h) && Next(s, Refresh(reported, added, driver), t)
    ensures Listed(t.world) && x in AfterClose(t.world, h.port).fields
    ensures AfterClose(t.world, h.port).fields[x].available <==> Entry(x.name, x.ptype) in reported
  {
    ReleasableIffFound(s, t, reported, added, driver, x, h);
    StaysIffReported(s.world, Refresh(reported, added, driver), x);
  }
}

/** A class component's configuration: one class name paired with one
    coelement constructor, and the at-most-once initialization of an element
    by it (UNBOUND, no marker class, to BOUND, marker class present). */
module Configuration {
  import opened ClassNames
  import opened Dom

  /** The marker class an element carries once it is initialized. */
  function MarkerOf(className: string): (r: string)
    ensures |r| == |className| + 12 && r[..|className|] == className
    ensures r[|className|..] == "-initialized"
  {
    className + "-initialized"
  }

  /** The selector of the elements of the class that are not initialized. */
  function SelectorOf(className: string): (r: string)
    ensures |r| == 2 * |className| + 20
    ensures r[0] == '.' && r[1..1 + |className|] == className
    ensures r[1 + |className|..7 + |className|] == ":not(."
    ensures r[7 + |className|..|r| - 1] == MarkerOf(className) && r[|r| - 1] == ')'
  {
    "." + className + ":not(." + MarkerOf(className) + ")"
  }

  /** The key of the data stash under which the coelement is kept. */
  function DataKey(className: string): (r: string)
    ensures |r| == |className| + 12 && r[12..] == className
    ensures r[..12] == "__coelement:"
  {
    "__coelement:" + className
  }

  /** Distinct components have distinct markers. */
  lemma MarkerInjective(a: string, b: string)
    requires MarkerOf(a) == MarkerOf(b)
    ensures a == b
  {
    assert a == MarkerOf(a)[..|a|];
  }

  /** The marker of a class name is itself a class name, and not that name. */
  lemma MarkerIsToken(a: string)
    requires ClassToken(a)
    ensures ClassToken(MarkerOf(a)) && MarkerOf(a) != a
  {
    var m := MarkerOf(a);
    forall i | 0 <= i < |m| ensures !IsSpace(m[i]) {
      if i >= |a| {
        assert m[i] == "-initialized"[i - |a|];
      }
    }
  }

  /** Distinct components have distinct selectors. */
  lemma SelectorInjective(a: string, b: string)
    requires SelectorOf(a) == SelectorOf(b)
    ensures a == b
  {
    assert |a| == |b|;
  }

  /** Distinct components keep their coelements under distinct keys. */
  lemma DataKeyInjective(a: string, b: string)
    requires DataKey(a) == DataKey(b)
    ensures a == b
  {
    assert a == DataKey(a)[12..];
  }

  /** The listeners of the `bindTo` calls recorded in `log`, in order. */
  function BoundListeners(log: seq<Effect>): (r: seq<Listener>) {
    if log == [] then []
    else (if log[0].Bound? then [log[0].listener] else []) + BoundListeners(log[1..])
  }

  /** How many times `log` records a call of constructor `ctor`. */
  function Constructions(log: seq<Effect>, ctor: Ctor): (n: nat) {
    if log == [] then 0
    else (if log[0] == Constructed(ctor) then 1 else 0) + Constructions(log[1..], ctor)
  }

  lemma {:induction false} BoundListenersAppend(a: seq<Effect>, b: seq<Effect>)
    ensures BoundListeners(a + b) == BoundListeners(a) + BoundListeners(b)
  {
    if a != [] {
      assert (a + b)[1..] == a[1..] + b;
      BoundListenersAppend(a[1..], b);
    } else {
      assert a + b == b;
    }
  }

  lemma {:induction false} ConstructionsAppend(a: seq<Effect>, b: seq<Effect>, ctor: Ctor)
    ensures Constructions(a + b, ctor) == Constructions(a, ctor) + Constructions(b, ctor)
  {
    if a != [] {
      assert (a + b)[1..] == a[1..] + b;
      ConstructionsAppend(a[1..], b, ctor);
    } else {
      assert a + b == b;
    }
  }

  /** The listeners' `bindTo` calls, in list order, up to and including the
      first that throws. */
  function BindTrace(ls: seq<Listener>, co: Coelement): (r: (seq<Effect>, Outcome)) {
    if ls == [] then ([], Done)
    else if ls[0].bindThrows then ([Bound(ls[0], co)], Threw(BindThrew(ls[0])))
    else
      var (t, o) := BindTrace(ls[1..], co);
      ([Bound(ls[0], co)] + t, o)
  }

  /** The position of the first listener whose binding throws, or the
      length of the list when none does. */
  function FirstThrowing(ls: seq<Listener>): (k: nat)
    ensures k <= |ls|
    ensures forall i :: 0 <= i < k ==> !ls[i].bindThrows
    ensures k < |ls| ==> ls[k].bindThrows
  {
    if ls == [] || ls[0].bindThrows then 0 else 1 + FirstThrowing(ls[1..])
  }

  /** How many listeners get their `bindTo` called. */
  function Attempted(ls: seq<Listener>): (n: nat) {
    if FirstThrowing(ls) < |ls| then FirstThrowing(ls) + 1 else |ls|
  }

  /** Binding calls `bindTo` on each listener in order, stops after the
      first that throws and rethrows its error. */
  lemma {:induction false} BindTraceMeaning(ls: seq<Listener>, co: Coelement)
    ensures Attempted(ls) <= |ls|
    ensures BoundListeners(BindTrace(ls, co).0) == ls[..Attempted(ls)]
    ensures BindTrace(ls, co).1 ==
      if FirstThrowing(ls) < |ls| then Threw(BindThrew(ls[FirstThrowing(ls)])) else Done
  {
    if ls != [] && !ls[0].bindThrows {
      BindTraceMeaning(ls[1..], co);
      var (t, o) := BindTrace(ls[1..], co);
      assert BindTrace(ls, co).0 == [Bound(ls[0], co)] + t;
      BoundListenersAppend([Bound(ls[0], co)], t);
      assert ls[..Attempted(ls)] == [ls[0]] + ls[1..][..Attempted(ls[1..])];
    } else if ls != [] {
      assert BoundListeners([Bound(ls[0], co)]) == [ls[0]];
    }
  }

  /** Binding does nothing but call `bindTo` with the new coelement. */
  lemma {:induction false} BindTraceOnlyBinds(ls: seq<Listener>, co: Coelement)
    ensures forall e :: e in BindTrace(ls, co).0 ==> e.Bound? && e.co == co
  {
    if ls != [] && !ls[0].bindThrows {
      BindTraceOnlyBinds(ls[1..], co);
      assert BindTrace(ls, co).0 == [Bound(ls[0], co)] + BindTrace(ls[1..], co).0;
    }
  }

  /** One more listener, after a prefix that bound cleanly: its `bindTo`
      is called, and when it throws the rest of the list is not reached. */
  lemma BindStep(ls: seq<Listener>, i: nat, co: Coelement)
    requires i < |ls| && BindTrace(ls[..i], co).1 == Done
    ensures BindTrace(ls[..i + 1], co).0 == BindTrace(ls[..i], co).0 + [Bound(ls[i], co)]
    ensures BindTrace(ls[..i + 1], co).1 == if ls[i].bindThrows then Threw(BindThrew(ls[i])) else Done
    ensures ls[i].bindThrows ==> BindTrace(ls, co) == BindTrace(ls[..i + 1], co)
  {
    assert ls[..i + 1] == ls[..i] + [ls[i]];
    BindTraceAppend(ls[..i], [ls[i]], co);
    assert BindTrace([ls[i]], co).0 == [Bound(ls[i], co)] by {
      assert [ls[i]][1..] == [];
    }
    if ls[i].bindThrows {
      assert ls == ls[..i + 1] + ls[i + 1..];
      BindTraceAppend(ls[..i + 1], ls[i + 1..], co);
    }
  }

  /** Binding `a + b` is binding `a` and, unless that threw, then `b`. */
  lemma {:induction false} BindTraceAppend(a: seq<Listener>, b: seq<Listener>, co: Coelement)
    ensures BindTrace(a + b, co) ==
      if BindTrace(a, co).1.Threw? then BindTrace(a, co)
      else (BindTrace(a, co).0 + BindTrace(b, co).0, BindTrace(b, co).1)
  {
    if a != [] {
      assert (a + b)[0] == a[0];
      assert (a + b)[1..] == a[1..] + b;
      BindTraceAppend(a[1..], b, co);
      if !a[0].bindThrows {
        var t1, t2 := BindTrace(a[1..], co).0, BindTrace(b, co).0;
        assert [Bound(a[0], co)] + (t1 + t2) == ([Bound(a[0], co)] + t1) + t2;
      }
    } else {
      assert a + b == b;
      assert [] + BindTrace(b, co).0 == BindTrace(b, co).0;
    }
  }

  /** `ClassComponentConfiguration`: a class name and the constructor of
      its coelements, with the marker class and the selector derived from
      the name. */
  class ClassComponentConfiguration {
    const className: string
    const ctor: Ctor
    const initClass: string := MarkerOf(className)
    const selector: string := SelectorOf(className)

    constructor (className: string, ctor: Ctor)
      ensures this.className == className && this.ctor == ctor
      ensures initClass == className + "-initialized"
      ensures selector == "." + className + ":not(." + initClass + ")"
    {
      this.className := className;
      this.ctor := ctor;
    }

    /** `getAllListenerInfo`: the constructor's `__events__`, or none. */
    function GetAllListenerInfo(): (r: seq<Listener>)
      ensures ctor.events.None? ==> r == []
      ensures ctor.events.Some? ==> r == ctor.events.value
    {
      if ctor.events.Some? then ctor.events.value else []
    }

    /** `applyCustomDefinition` on an element in state `v`, with `co` the
        object that `new ctor(elem)` allocates. */
    ghost function Apply(v: ElemView, co: Coelement): (r: (ElemView, Outcome)) {
      var v1 := v.(log := v.log + [Constructed(ctor)]);
      if ctor.newThrows then (v1, Threw(ConstructorThrew(ctor.name)))
      else
        var v2 := if ctor.hasInitHook then v1.(log := v1.log + [InitHookCalled(co)]) else v1;
        if ctor.hasInitHook && ctor.hookThrows then (v2, Threw(InitHookThrew(ctor.name)))
        else
          var (t, o) := BindTrace(GetAllListenerInfo(), co);
          var v3 := v2.(log := v2.log + t);
          if o.Threw? then (v3, o) else (v3.(data := v3.data[DataKey(className) := co]), Done)
    }

    /** `initElem` on an element in state `v`.  `co` is the coelement the
        call constructs; `null` stands for "none", which `InitElem` returns
        exactly when the element already carries the marker. */
    ghost function InitSpec(v: ElemView, co: Coelement?): (r: (ElemView, Outcome)) {
      if HasClass(v.className, initClass) || co == null then (v, Done)
      else Apply(v.WithClass(initClass), co)
    }

    /** `applyCustomDefinition(elem)`: construct the coelement, run its
        `__cc_init__` hook or attach the element to it, bind every listener
        in order, and store it in the element's data under its key. */
    method ApplyCustomDefinition(elem: Element) returns (o: Outcome, co: Coelement)
      modifies elem`data, elem`log
      ensures fresh(co) && co.ctor == ctor
      ensures (elem.View(), o) == Apply(old(elem.View()), co)
      ensures co.elem == if ctor.newThrows || ctor.hasInitHook then null else elem
    {
      co := new Coelement(ctor);
      elem.log := elem.log + [Constructed(ctor)];
      if ctor.newThrows {
        o := Threw(ConstructorThrew(ctor.name));
        return;
      }
      if ctor.hasInitHook {
        elem.log := elem.log + [InitHookCalled(co)];
        if ctor.hookThrows {
          o := Threw(InitHookThrew(ctor.name));
          return;
        }
      } else {
        co.elem := elem;
      }
      var infos := GetAllListenerInfo();
      ghost var before := elem.log;
      var i := 0;
      while i < |infos|
        invariant 0 <= i <= |infos|
        invariant BindTrace(infos[..i], co).1 == Done
        invariant elem.log == before + BindTrace(infos[..i], co).0
        invariant elem.data == old(elem.data) && elem.className == old(elem.className)
        invariant co.elem == if ctor.hasInitHook then null else elem
      {
        BindStep(infos, i, co);
        elem.log := elem.log + [Bound(infos[i], co)];
        assert elem.log == before + BindTrace(infos[..i + 1], co).0;
        if infos[i].bindThrows {
          o := Threw(BindThrew(infos[i]));
          return;
        }
        i := i + 1;
      }
      assert infos[..i] == infos;
      elem.data := elem.data[DataKey(className) := co];
      o := Done;
    }

    /** `initElem(elem)`: initialize an element that does not carry the
        marker, marking it first; leave a marked element alone. */
    method InitElem(elem: Element) returns (o: Outcome, ghost co: Coelement?)
      modifies elem`className, elem`data, elem`log
      ensures old(elem.HasClass(initClass)) ==> co == null && o == Done && elem.View() == old(elem.View())
      ensures !old(elem.HasClass(initClass)) ==>
        co != null && fresh(co) && co.ctor == ctor &&
        co.elem == (if ctor.newThrows || ctor.hasInitHook then null else elem)
      ensures (elem.View(), o) == InitSpec(old(elem.View()), co)
    {
      if !elem.HasClass(initClass) {
        elem.AddClass(initClass);
        var c;
        o, c := ApplyCustomDefinition(elem);
        co := c;
      } else {
        o, co := Done, null;
      }
    }
  }

  /** A configuration whose name is a single class name. */
  ghost predicate Wf(cfg: ClassComponentConfiguration) {
    ClassToken(cfg.className)
  }

  /** Whether the coelement gets built: `new` and the hook did not throw. */
  predicate Built(ctor: Ctor) {
    !ctor.newThrows && !(ctor.hasInitHook && ctor.hookThrows)
  }

  /** The `__cc_init__` call, when there is one. */
  function HookPart(ctor: Ctor, co: Coelement): (r: seq<Effect>) {
    if !ctor.newThrows && ctor.hasInitHook then [InitHookCalled(co)] else []
  }

  /** The bindings of `applyCustomDefinition`, when the coelement got built. */
  function BindPart(cfg: ClassComponentConfiguration, co: Coelement): (r: seq<Effect>) {
    if Built(cfg.ctor) then BindTrace(cfg.GetAllListenerInfo(), co).0 else []
  }

  /** What `applyCustomDefinition` appends to the trace. */
  function Tail(cfg: ClassComponentConfiguration, co: Coelement): (r: seq<Effect>) {
    [Constructed(cfg.ctor)] + HookPart(cfg.ctor, co) + BindPart(cfg, co)
  }

  /** `applyCustomDefinition` in one piece: the class attribute is left
      alone, the trace grows by the constructor call, the hook call and the
      bindings, and the coelement is stored exactly when nothing threw. */
  lemma ApplyShape(cfg: ClassComponentConfiguration, v: ElemView, co: Coelement)
    ensures var (v', o) := cfg.Apply(v, co);
      v'.className == v.className &&
      v'.log == v.log + Tail(cfg, co) &&
      (o == Done <==> Built(cfg.ctor) && BindTrace(cfg.GetAllListenerInfo(), co).1 == Done) &&
      v'.data == if o == Done then v.data[DataKey(cfg.className) := co] else v.data
  {
  }

  lemma {:induction false} NoConstructions(log: seq<Effect>, ctor: Ctor)
    requires forall e :: e in log ==> !e.Constructed?
    ensures Constructions(log, ctor) == 0
  {
    if log != [] {
      assert log[0] in log;
      assert forall e :: e in log[1..] ==> e in log;
      NoConstructions(log[1..], ctor);
    }
  }

  lemma {:induction false} NoBindings(log: seq<Effect>)
    requires forall e :: e in log ==> !e.Bound?
    ensures BoundListeners(log) == []
  {
    if log != [] {
      assert log[0] in log;
      assert forall e :: e in log[1..] ==> e in log;
      NoBindings(log[1..]);
    }
  }

  /** The constructor is called once per `applyCustomDefinition`. */
  lemma TailConstructions(cfg: ClassComponentConfiguration, co: Coelement)
    ensures Constructions(Tail(cfg, co), cfg.ctor) == 1
  {
    var c, h, b := [Constructed(cfg.ctor)], HookPart(cfg.ctor, co), BindPart(cfg, co);
    BindPartOnlyBinds(cfg, co);
    NoConstructions(b, cfg.ctor);
    assert Constructions(h, cfg.ctor) == 0 by {
      if h != [] {
        assert h[1..] == [];
      }
    }
    assert Constructions(c, cfg.ctor) == 1 by {
      assert c[1..] == [];
    }
    ConstructionsAppend(c, h, cfg.ctor);
    ConstructionsAppend(c + h, b, cfg.ctor);
  }

  /** The bindings part holds `bindTo` calls with the new coelement only. */
  lemma BindPartOnlyBinds(cfg: ClassComponentConfiguration, co: Coelement)
    ensures forall e :: e in BindPart(cfg, co) ==> e.Bound? && e.co == co
  {
    BindTraceOnlyBinds(cfg.GetAllListenerInfo(), co);
  }

  /** The hook is called exactly when the constructed instance has one. */
  lemma TailHook(cfg: ClassComponentConfiguration, co: Coelement)
    ensures InitHookCalled(co) in Tail(cfg, co) <==> cfg.ctor.hasInitHook && !cfg.ctor.newThrows
  {
    BindPartOnlyBinds(cfg, co);
    assert InitHookCalled(co) !in BindPart(cfg, co);
  }

  /** The listeners bound, in order, once the coelement is built. */
  lemma TailBindings(cfg: ClassComponentConfiguration, co: Coelement)
    ensures var ls := cfg.GetAllListenerInfo();
      BoundListeners(Tail(cfg, co)) == if Built(cfg.ctor) then ls[..Attempted(ls)] else []
  {
    BindTraceMeaning(cfg.GetAllListenerInfo(), co);
    var c, h := [Constructed(cfg.ctor)], HookPart(cfg.ctor, co);
    assert BoundListeners(c) == [] by {
      assert c[1..] == [];
    }
    assert BoundListeners(h) == [] by {
      if h != [] {
        assert h[1..] == [];
      }
    }
    BoundListenersAppend(c, h);
    BoundListenersAppend(c + h, BindPart(cfg, co));
  }

  /** On an element without the marker, `initElem` is `addClass` of the
      marker followed by `applyCustomDefinition`. */
  lemma InitUnmarked(cfg: ClassComponentConfiguration, v: ElemView, co: Coelement)
    requires Wf(cfg) && !HasClass(v.className, cfg.initClass)
    ensures var v1 := ElemView(AddClass(v.className, cfg.initClass), v.data, v.log + [ClassAdded(cfg.initClass)]);
      cfg.InitSpec(v, co) == cfg.Apply(v1, co) &&
      Words(v1.className) == Words(v.className) + [cfg.initClass]
  {
    MarkerIsToken(cfg.className);
    AddClassWords(v.className, cfg.initClass);
  }

  /** On an element without the marker: the marker is added first (it stays
      even when a later step throws, and no other class changes), then the
      constructor is called, once; the `__cc_init__` hook is called exactly
      when the instance has one. */
  lemma InitMarksBeforeConstructing(cfg: ClassComponentConfiguration, v: ElemView, co: Coelement)
    requires Wf(cfg) && !HasClass(v.className, cfg.initClass)
    ensures Words(cfg.InitSpec(v, co).0.className) == Words(v.className) + [cfg.initClass]
    ensures var log := cfg.InitSpec(v, co).0.log;
      |log| >= |v.log| + 2 && log[..|v.log|] == v.log &&
      log[|v.log|] == ClassAdded(cfg.initClass) && log[|v.log| + 1] == Constructed(cfg.ctor) &&
      Constructions(log, cfg.ctor) == Constructions(v.log, cfg.ctor) + 1 &&
      (InitHookCalled(co) in log[|v.log|..] <==> cfg.ctor.hasInitHook && !cfg.ctor.newThrows)
  {
    InitUnmarked(cfg, v, co);
    InitLog(cfg, v, co);
    LogExtension(v.log, cfg, co);
  }

  /** The trace of `initElem` on an element without the marker: the marker
      class added, then what `applyCustomDefinition` does. */
  lemma InitLog(cfg: ClassComponentConfiguration, v: ElemView, co: Coelement)
    requires Wf(cfg) && !HasClass(v.className, cfg.initClass)
    ensures cfg.InitSpec(v, co).0.log == v.log + ([ClassAdded(cfg.initClass)] + Tail(cfg, co))
  {
    InitUnmarked(cfg, v, co);
    var v1 := ElemView(AddClass(v.className, cfg.initClass), v.data, v.log + [ClassAdded(cfg.initClass)]);
    ApplyShape(cfg, v1, co);
  }

  /** The trace `initElem` adds to an unmarked element, read off. */
  lemma LogExtension(pre: seq<Effect>, cfg: ClassComponentConfiguration, co: Coelement)
    ensures var ext := [ClassAdded(cfg.initClass)] + Tail(cfg, co);
      var log := pre + ext;
      var ls := cfg.GetAllListenerInfo();
      |log| >= |pre| + 2 && log[..|pre|] == pre &&
      log[|pre|] == ClassAdded(cfg.initClass) && log[|pre| + 1] == Constructed(cfg.ctor) &&
      Constructions(log, cfg.ctor) == Constructions(pre, cfg.ctor) + 1 &&
      (InitHookCalled(co) in log[|pre|..] <==> cfg.ctor.hasInitHook && !cfg.ctor.newThrows) &&
      BoundListeners(log) == BoundListeners(pre) + (if Built(cfg.ctor) then ls[..Attempted(ls)] else [])
  {
    LogOrder(pre, cfg, co);
    LogConstructions(pre, cfg, co);
    LogBindings(pre, cfg, co);
  }

  lemma LogOrder(pre: seq<Effect>, cfg: ClassComponentConfiguration, co: Coelement)
    ensures var ext := [ClassAdded(cfg.initClass)] + Tail(cfg, co);
      var log := pre + ext;
      |log| >= |pre| + 2 && log[..|pre|] == pre &&
      log[|pre|] == ClassAdded(cfg.initClass) && log[|pre| + 1] == Constructed(cfg.ctor) &&
      (InitHookCalled(co) in log[|pre|..] <==> cfg.ctor.hasInitHook && !cfg.ctor.newThrows)
  {
    var t := Tail(cfg, co);
    var ext := [ClassAdded(cfg.initClass)] + t;
    assert (pre + ext)[|pre|..] == ext;
    assert t[0] == Constructed(cfg.ctor);
    TailHook(cfg, co);
  }

  lemma LogConstructions(pre: seq<Effect>, cfg: ClassComponentConfiguration, co: Coelement)
    ensures Constructions(pre + ([ClassAdded(cfg.initClass)] + Tail(cfg, co)), cfg.ctor) ==
      Constructions(pre, cfg.ctor) + 1
  {
    var c, t := [ClassAdded(cfg.initClass)], Tail(cfg, co);
    TailConstructions(cfg, co);
    assert Constructions(c, cfg.ctor) == 0 by {
      assert c[1..] == [];
    }
    ConstructionsAppend(c, t, cfg.ctor);
    ConstructionsAppend(pre, c + t, cfg.ctor);
  }

  lemma LogBindings(pre: seq<Effect>, cfg: ClassComponentConfiguration, co: Coelement)
    ensures var ls := cfg.GetAllListenerInfo();
      BoundListeners(pre + ([ClassAdded(cfg.initClass)] + Tail(cfg, co))) ==
      BoundListeners(pre) + (if Built(cfg.ctor) then ls[..Attempted(ls)] else [])
  {
    var c, t := [ClassAdded(cfg.initClass)], Tail(cfg, co);
    TailBindings(cfg, co);
    assert BoundListeners(c) == [] by {
      assert c[1..] == [];
    }
    BoundListenersAppend(c, t);
    assert BoundListeners(c + t) == BoundListeners(t);
    BoundListenersAppend(pre, c + t);
  }

  /** On an element without the marker: the listeners are bound in list
      order, each once, only after construction and the hook succeeded, up
      to the first whose binding throws; the call completes exactly when
      nothing threw, and only then is the coelement stored, under its key. */
  lemma InitBindsThenStores(cfg: ClassComponentConfiguration, v: ElemView, co: Coelement)
    requires Wf(cfg) && !HasClass(v.className, cfg.initClass)
    ensures var ls := cfg.GetAllListenerInfo();
      var (v', o) := cfg.InitSpec(v, co);
      BoundListeners(v'.log) == BoundListeners(v.log) + (if Built(cfg.ctor) then ls[..Attempted(ls)] else []) &&
      (o == Done <==> Built(cfg.ctor) && FirstThrowing(ls) == |ls|) &&
      v'.data == (if o == Done then v.data[DataKey(cfg.className) := co] else v.data)
  {
    InitUnmarked(cfg, v, co);
    var v1 := ElemView(AddClass(v.className, cfg.initClass), v.data, v.log + [ClassAdded(cfg.initClass)]);
    ApplyShape(cfg, v1, co);
    BindTraceMeaning(cfg.GetAllListenerInfo(), co);
    InitLog(cfg, v, co);
    LogExtension(v.log, cfg, co);
  }

  /** A constructor without `__events__` gets nothing bound. */
  lemma InitWithoutEventsBindsNothing(cfg: ClassComponentConfiguration, v: ElemView, co: Coelement?)
    requires cfg.ctor.events.None?
    ensures BoundListeners(cfg.InitSpec(v, co).0.log) == BoundListeners(v.log)
  {
    if !HasClass(v.className, cfg.initClass) && co != null {
      var v1 := v.WithClass(cfg.initClass);
      WithClassBindsNothing(v, cfg.initClass);
      ApplyShape(cfg, v1, co);
      TailBindings(cfg, co);
      BoundListenersAppend(v1.log, Tail(cfg, co));
    }
  }

  /** `addClass` binds no listener. */
  lemma WithClassBindsNothing(v: ElemView, c: string)
    ensures BoundListeners(v.WithClass(c).log) == BoundListeners(v.log)
  {
    if v.WithClass(c) != v {
      BoundListenersAppend(v.log, [ClassAdded(c)]);
      assert BoundListeners([ClassAdded(c)]) == [] by {
        assert [ClassAdded(c)][1..] == [];
      }
    }
  }

  /** Initializing twice is initializing once: the second call finds the
      marker and changes nothing, so the coelement is constructed and every
      listener bound by the first call alone. */
  lemma InitTwice(cfg: ClassComponentConfiguration, v: ElemView, co1: Coelement?, co2: Coelement?)
    requires Wf(cfg)
    requires HasClass(v.className, cfg.initClass) || co1 != null
    ensures var (v1, o1) := cfg.InitSpec(v, co1);
      cfg.InitSpec(v1, co2) == (v1, Done)
  {
    if !HasClass(v.className, cfg.initClass) {
      InitUnmarked(cfg, v, co1);
      var v1 := ElemView(AddClass(v.className, cfg.initClass), v.data, v.log + [ClassAdded(cfg.initClass)]);
      ApplyShape(cfg, v1, co1);
      assert cfg.initClass in Words(v1.className);
    }
  }
}

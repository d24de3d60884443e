/** The `cc` facade: the `cc` property of a jQuery selection, created once
    per DOM node and cached on it, which initializes the node as the class
    components of a list of names, looks coelements up on it, and combines
    the two. */
module ClassComponent {
  import opened ClassNames
  import opened Dom
  import opened Configuration

  /** The coelements `cos` that the loop over `names` constructed: each was
      built by the constructor of the entry its name is registered under,
      and no two turns share one. */
  ghost predicate BuiltByEntries(ccc: map<string, ClassComponentConfiguration>, names: seq<string>,
                                 cos: seq<Coelement?>) {
    |cos| <= |names| &&
    (forall k :: 0 <= k < |cos| && cos[k] != null ==> names[k] in ccc && cos[k].ctor == ccc[names[k]].ctor) &&
    (forall j, k :: 0 <= j < k < |cos| && cos[k] != null ==> cos[j] != cos[k])
  }

  /** One more turn keeps `BuiltByEntries` when its coelement, if any, was
      built by its entry's constructor and is none of the earlier ones. */
  lemma BuiltStep(ccc: map<string, ClassComponentConfiguration>, names: seq<string>,
                  cos: seq<Coelement?>, co: Coelement?, cos1: seq<Coelement?>)
    requires BuiltByEntries(ccc, names, cos) && |cos| < |names| && cos1 == cos + [co]
    requires co != null ==> names[|cos|] in ccc && co.ctor == ccc[names[|cos|]].ctor && co !in cos
    ensures BuiltByEntries(ccc, names, cos1)
  {
    forall j, k | 0 <= j < k < |cos1| && cos1[k] != null
      ensures cos1[j] != cos1[k]
    {
      if k == |cos| {
        assert cos1[j] == cos[j];
      }
    }
  }

  /** Every registry entry is a configuration of the name it is registered
      under, and that name is a single class name. */
  ghost predicate RegistryValid(ccc: map<string, ClassComponentConfiguration>) {
    forall n :: n in ccc ==> ClassToken(n) && ccc[n].className == n
  }

  /** The element after `addClass` of each of `cs`, in order. */
  ghost function WithClasses(v: ElemView, cs: seq<string>): (r: ElemView)
    decreases |cs|
  {
    if cs == [] then v else WithClasses(v.WithClass(cs[0]), cs[1..])
  }

  /** The names of `names` that have a registry entry, in order. */
  function Registered(ccc: map<string, ClassComponentConfiguration>, names: seq<string>): (r: seq<string>)
    ensures forall n :: n in r <==> n in names && n in ccc
  {
    if names == [] then []
    else (if names[0] in ccc then [names[0]] else []) + Registered(ccc, names[1..])
  }

  /** The `forEach` of the `cc` closure on the DOM node in state `v`, for the
      split names `names`.  A registered name has its class added and its
      entry invoked on the node; `cos` lists, name by name, the coelement
      each invocation constructs (`null` for none, and for a name that was
      skipped).  The result is the node's new state, how the loop ended, and
      the classes added to the whole selection, in order; the loop stops at
      the first invocation that throws. */
  ghost function Dispatch(ccc: map<string, ClassComponentConfiguration>, names: seq<string>,
                          cos: seq<Coelement?>, v: ElemView): (r: (ElemView, Outcome, seq<string>))
    decreases |names|
  {
    if names == [] then (v, Done, [])
    else
      var co := if cos == [] then null else cos[0];
      var rest := if cos == [] then [] else cos[1..];
      if names[0] !in ccc then Dispatch(ccc, names[1..], rest, v)
      else
        var (v1, o) := ccc[names[0]].InitSpec(v.WithClass(names[0]), co);
        if o.Threw? then (v1, o, [names[0]])
        else
          var (v2, o2, added) := Dispatch(ccc, names[1..], rest, v1);
          (v2, o2, [names[0]] + added)
  }

  lemma {:induction false} WithClassesSnoc(v: ElemView, cs: seq<string>, c: string)
    ensures WithClasses(v, cs + [c]) == WithClasses(v, cs).WithClass(c)
    decreases |cs|
  {
    if cs == [] {
      assert [c][1..] == [];
    } else {
      assert (cs + [c])[1..] == cs[1..] + [c];
      WithClassesSnoc(v.WithClass(cs[0]), cs[1..], c);
    }
  }

  /** Running the loop over `a + b` is running it over `a` and then, unless
      that threw, over `b` from where `a` left the node. */
  lemma {:induction false} DispatchAppend(ccc: map<string, ClassComponentConfiguration>,
                                          a: seq<string>, b: seq<string>,
                                          cosA: seq<Coelement?>, cosB: seq<Coelement?>, v: ElemView)
    requires |cosA| == |a|
    ensures var (v1, o1, added1) := Dispatch(ccc, a, cosA, v);
      var (v2, o2, added2) := Dispatch(ccc, b, cosB, v1);
      Dispatch(ccc, a + b, cosA + cosB, v) ==
        if o1.Threw? then (v1, o1, added1) else (v2, o2, added1 + added2)
    decreases |a|
  {
    if a == [] {
      assert a + b == b && cosA + cosB == cosB;
      assert [] + Dispatch(ccc, b, cosB, v).2 == Dispatch(ccc, b, cosB, v).2;
    } else {
      assert (a + b)[0] == a[0] && (a + b)[1..] == a[1..] + b;
      assert (cosA + cosB)[0] == cosA[0] && (cosA + cosB)[1..] == cosA[1..] + cosB;
      DispatchAppend(ccc, a[1..], b, cosA[1..], cosB, if a[0] in ccc then ccc[a[0]].InitSpec(v.WithClass(a[0]), cosA[0]).0 else v);
      if a[0] in ccc {
        var (v1, o) := ccc[a[0]].InitSpec(v.WithClass(a[0]), cosA[0]);
        if !o.Threw? {
          var (w1, p1, x1) := Dispatch(ccc, a[1..], cosA[1..], v1);
          if !p1.Threw? {
            var x2 := Dispatch(ccc, b, cosB, w1).2;
            assert [a[0]] + (x1 + x2) == ([a[0]] + x1) + x2;
          }
        }
      }
    }
  }

  /** Only registered names are acted on, in split order: the classes added
      are the registered names up to the one whose invocation threw, and all
      of them when none threw.  A name without an entry is skipped without
      a class added, an entry invoked or an error. */
  lemma {:induction false} DispatchAdds(ccc: map<string, ClassComponentConfiguration>, names: seq<string>,
                                        cos: seq<Coelement?>, v: ElemView)
    ensures var (_, o, added) := Dispatch(ccc, names, cos, v);
      var rs := Registered(ccc, names);
      added <= rs && (o == Done ==> added == rs) && (o.Threw? ==> added != [])
    decreases |names|
  {
    if names != [] {
      var co := if cos == [] then null else cos[0];
      var rest := if cos == [] then [] else cos[1..];
      var n := names[0];
      var rs := Registered(ccc, names[1..]);
      if n !in ccc {
        DispatchAdds(ccc, names[1..], rest, v);
        assert Registered(ccc, names) == rs;
        assert Dispatch(ccc, names, cos, v) == Dispatch(ccc, names[1..], rest, v);
      } else {
        var (v1, o) := ccc[n].InitSpec(v.WithClass(n), co);
        assert Registered(ccc, names) == [n] + rs;
        if o.Threw? {
          assert Dispatch(ccc, names, cos, v) == (v1, o, [n]);
        } else {
          DispatchAdds(ccc, names[1..], rest, v1);
          var r := Dispatch(ccc, names[1..], rest, v1);
          assert Dispatch(ccc, names, cos, v) == (r.0, r.1, [n] + r.2);
          assert ([n] + r.2)[1..] == r.2 && ([n] + rs)[1..] == rs;
        }
      }
    }
  }

  /** Every registered name the loop reaches on a node without that
      component's marker comes with the coelement its invocation built. */
  ghost predicate Supplied(ccc: map<string, ClassComponentConfiguration>, names: seq<string>,
                           cos: seq<Coelement?>, v: ElemView)
    decreases |names|
  {
    names == [] ||
    var co := if cos == [] then null else cos[0];
    var rest := if cos == [] then [] else cos[1..];
    if names[0] !in ccc then Supplied(ccc, names[1..], rest, v)
    else
      var w := v.WithClass(names[0]);
      (HasClass(w.className, ccc[names[0]].initClass) || co != null) &&
      var (v1, o) := ccc[names[0]].InitSpec(w, co);
      o.Threw? || Supplied(ccc, names[1..], rest, v1)
  }

  lemma {:induction false} SuppliedAppend(ccc: map<string, ClassComponentConfiguration>,
                                          a: seq<string>, b: seq<string>,
                                          cosA: seq<Coelement?>, cosB: seq<Coelement?>, v: ElemView)
    requires |cosA| == |a| && Supplied(ccc, a, cosA, v)
    requires var (v1, o1, _) := Dispatch(ccc, a, cosA, v);
      o1.Threw? || Supplied(ccc, b, cosB, v1)
    ensures Supplied(ccc, a + b, cosA + cosB, v)
    decreases |a|
  {
    if a == [] {
      assert a + b == b && cosA + cosB == cosB;
    } else {
      assert (a + b)[0] == a[0] && (a + b)[1..] == a[1..] + b;
      assert (cosA + cosB)[0] == cosA[0] && (cosA + cosB)[1..] == cosA[1..] + cosB;
      if a[0] !in ccc {
        SuppliedAppend(ccc, a[1..], b, cosA[1..], cosB, v);
      } else {
        var (v1, o) := ccc[a[0]].InitSpec(v.WithClass(a[0]), cosA[0]);
        if !o.Threw? {
          SuppliedAppend(ccc, a[1..], b, cosA[1..], cosB, v1);
        }
      }
    }
  }

  /** The loop over a single name. */
  lemma DispatchOne(ccc: map<string, ClassComponentConfiguration>, name: string, co: Coelement?, w: ElemView)
    ensures Dispatch(ccc, [name], [co], w) ==
      if name in ccc then
        (ccc[name].InitSpec(w.WithClass(name), co).0, ccc[name].InitSpec(w.WithClass(name), co).1, [name])
      else (w, Done, [])
  {
    assert [name][1..] == [] && [co][1..] == [];
    if name in ccc {
      var w1 := ccc[name].InitSpec(w.WithClass(name), co).0;
      assert Dispatch(ccc, [], [], w1) == (w1, Done, []);
      assert [name] + [] == [name];
    }
  }

  /** The loop's step: the state after one more name. */
  lemma DispatchStep(ccc: map<string, ClassComponentConfiguration>, names: seq<string>, i: nat,
                     cos: seq<Coelement?>, co: Coelement?, v: ElemView,
                     w: ElemView, added: seq<string>, w1: ElemView, o: Outcome,
                     cos1: seq<Coelement?>, added1: seq<string>)
    requires i < |names| && |cos| == i
    requires Dispatch(ccc, names[..i], cos, v) == (w, Done, added) && Supplied(ccc, names[..i], cos, v)
    requires Dispatch(ccc, [names[i]], [co], w) == (w1, o, if names[i] in ccc then [names[i]] else [])
    requires Supplied(ccc, [names[i]], [co], w)
    requires cos1 == cos + [co] && added1 == if names[i] in ccc then added + [names[i]] else added
    ensures Dispatch(ccc, names[..i + 1], cos1, v) == (w1, o, added1)
    ensures Supplied(ccc, names[..i + 1], cos1, v)
  {
    assert names[..i + 1] == names[..i] + [names[i]];
    DispatchAppend(ccc, names[..i], [names[i]], cos, [co], v);
    assert added + [] == added;
    SuppliedAppend(ccc, names[..i], [names[i]], cos, [co], v);
  }

  /** Once an invocation threw, the names after it are not reached. */
  lemma DispatchStops(ccc: map<string, ClassComponentConfiguration>, a: seq<string>, b: seq<string>,
                      cosA: seq<Coelement?>, v: ElemView)
    requires |cosA| == |a| && Dispatch(ccc, a, cosA, v).1.Threw?
    ensures Dispatch(ccc, a + b, cosA, v) == Dispatch(ccc, a, cosA, v)
    ensures Supplied(ccc, a, cosA, v) ==> Supplied(ccc, a + b, cosA, v)
  {
    assert cosA + [] == cosA;
    DispatchAppend(ccc, a, b, cosA, [], v);
    if Supplied(ccc, a, cosA, v) {
      SuppliedAppend(ccc, a, b, cosA, [], v);
    }
  }

  /** A loop that threw on the first `i` names has run over all of them. */
  lemma DispatchPrefixStops(ccc: map<string, ClassComponentConfiguration>, names: seq<string>, i: nat,
                            cos: seq<Coelement?>, v: ElemView)
    requires i <= |names| && |cos| == i && Dispatch(ccc, names[..i], cos, v).1.Threw?
    ensures Dispatch(ccc, names, cos, v) == Dispatch(ccc, names[..i], cos, v)
    ensures Supplied(ccc, names[..i], cos, v) ==> Supplied(ccc, names, cos, v)
  {
    assert names == names[..i] + names[i..];
    DispatchStops(ccc, names[..i], names[i..], cos, v);
  }

  /** `addClass` takes no class away, and adds a single class name. */
  lemma WithClassKeeps(v: ElemView, c: string)
    ensures forall x :: HasClass(v.className, x) ==> HasClass(v.WithClass(c).className, x)
    ensures ClassToken(c) ==> HasClass(v.WithClass(c).className, c)
  {
    if ClassToken(c) {
      AddClassWords(v.className, c);
    }
  }

  /** `initElem` takes no class away, and leaves the element marked. */
  lemma InitSpecKeeps(cfg: ClassComponentConfiguration, v: ElemView, co: Coelement?)
    ensures forall x :: HasClass(v.className, x) ==> HasClass(cfg.InitSpec(v, co).0.className, x)
    ensures Wf(cfg) && (HasClass(v.className, cfg.initClass) || co != null) ==>
      HasClass(cfg.InitSpec(v, co).0.className, cfg.initClass)
  {
    if !HasClass(v.className, cfg.initClass) && co != null {
      ApplyShape(cfg, v.WithClass(cfg.initClass), co);
      WithClassKeeps(v, cfg.initClass);
      if Wf(cfg) {
        MarkerIsToken(cfg.className);
      }
    }
  }

  /** The loop takes no class away from the node, and every name it added
      is on the node together with that component's marker, even when an
      invocation threw. */
  lemma {:induction false} DispatchMarks(ccc: map<string, ClassComponentConfiguration>, names: seq<string>,
                                         cos: seq<Coelement?>, v: ElemView)
    requires RegistryValid(ccc) && Supplied(ccc, names, cos, v)
    ensures var (v', _, added) := Dispatch(ccc, names, cos, v);
      (forall x :: HasClass(v.className, x) ==> HasClass(v'.className, x)) &&
      (forall n :: n in added ==> HasClass(v'.className, n) && HasClass(v'.className, MarkerOf(n)))
    decreases |names|
  {
    if names != [] {
      var co := if cos == [] then null else cos[0];
      var rest := if cos == [] then [] else cos[1..];
      var n := names[0];
      if n !in ccc {
        assert Supplied(ccc, names[1..], rest, v);
        DispatchMarks(ccc, names[1..], rest, v);
        assert Dispatch(ccc, names, cos, v) == Dispatch(ccc, names[1..], rest, v);
      } else {
        var w := v.WithClass(n);
        var (v1, o) := ccc[n].InitSpec(w, co);
        WithClassKeeps(v, n);
        InitSpecKeeps(ccc[n], w, co);
        assert HasClass(v1.className, n) && HasClass(v1.className, MarkerOf(n));
        if !o.Threw? {
          assert Supplied(ccc, names[1..], rest, v1);
          DispatchMarks(ccc, names[1..], rest, v1);
          var r := Dispatch(ccc, names[1..], rest, v1);
          assert Dispatch(ccc, names, cos, v) == (r.0, r.1, [n] + r.2);
        } else {
          assert Dispatch(ccc, names, cos, v) == (v1, o, [n]);
        }
      }
    }
  }

  /** When `cc(...)` completes, the node carries every registered name it
      was given, each with its component's marker. */
  lemma DispatchMarksAll(ccc: map<string, ClassComponentConfiguration>, names: seq<string>,
                         cos: seq<Coelement?>, v: ElemView)
    requires RegistryValid(ccc) && Supplied(ccc, names, cos, v)
    ensures var (v', o, _) := Dispatch(ccc, names, cos, v);
      o == Done ==> forall n :: n in names && n in ccc ==> HasClass(v'.className, n) && HasClass(v'.className, MarkerOf(n))
  {
    DispatchAdds(ccc, names, cos, v);
    DispatchMarks(ccc, names, cos, v);
  }

  /** On a node that already carries every registered name and its marker,
      `cc(...)` changes nothing: no class is added to it, no coelement is
      constructed, nothing is bound. */
  lemma {:induction false} DispatchMarkedIsNoop(ccc: map<string, ClassComponentConfiguration>, names: seq<string>,
                                                cos: seq<Coelement?>, v: ElemView)
    requires RegistryValid(ccc)
    requires forall n :: n in names && n in ccc ==> HasClass(v.className, n) && HasClass(v.className, MarkerOf(n))
    ensures Dispatch(ccc, names, cos, v) == (v, Done, Registered(ccc, names))
    decreases |names|
  {
    if names != [] {
      var rest := if cos == [] then [] else cos[1..];
      var co := if cos == [] then null else cos[0];
      assert forall n :: n in names[1..] ==> n in names;
      DispatchMarkedIsNoop(ccc, names[1..], rest, v);
      var n := names[0];
      if n in ccc {
        assert v.WithClass(n) == v;
        assert ccc[n].initClass == MarkerOf(n);
        assert ccc[n].InitSpec(v, co) == (v, Done);
        assert Registered(ccc, names) == [n] + Registered(ccc, names[1..]);
      } else {
        assert Registered(ccc, names) == Registered(ccc, names[1..]);
      }
    }
  }

  /** Calling `cc(names)` again after a call that completed changes nothing
      on the node. */
  lemma DispatchTwice(ccc: map<string, ClassComponentConfiguration>, names: seq<string>,
                      cos1: seq<Coelement?>, cos2: seq<Coelement?>, v: ElemView)
    requires RegistryValid(ccc) && Supplied(ccc, names, cos1, v)
    requires Dispatch(ccc, names, cos1, v).1 == Done
    ensures var v1 := Dispatch(ccc, names, cos1, v).0;
      Dispatch(ccc, names, cos2, v1) == (v1, Done, Registered(ccc, names))
  {
    DispatchMarksAll(ccc, names, cos1, v);
    DispatchMarkedIsNoop(ccc, names, cos2, Dispatch(ccc, names, cos1, v).0);
  }

  /** The installed facade: the registry `ccc` the closures consult, the
      value of `COELEMENT_DATA_KEY_PREFIX`, and, for every DOM node that has
      one, the context cached as its `cc` property. */
  class Facade {
    var ccc: map<string, ClassComponentConfiguration>
    const keyPrefix: string
    var contexts: map<Element, Context>

    constructor (ccc: map<string, ClassComponentConfiguration>, keyPrefix: string)
      ensures this.ccc == ccc && this.keyPrefix == keyPrefix && contexts == map[]
    {
      this.ccc := ccc;
      this.keyPrefix := keyPrefix;
      contexts := map[];
    }

    /** Each cached context belongs to this facade and to the node it is
        cached on. */
    ghost predicate Valid()
      reads this
    {
      forall d :: d in contexts ==> contexts[d].facade == this && contexts[d].Wf() && contexts[d].dom == d
    }

    /** The `cc` getter on the selection `sel`: fails on an empty selection;
        otherwise returns the context cached on the first node, creating
        and caching one for `sel` when there is none yet. */
    method ContextOf(sel: Selection) returns (r: Result<Context>)
      requires Valid()
      modifies this`contexts
      ensures Valid()
      ensures sel.nodes == [] ==> r == Err(EmptySelection) && contexts == old(contexts)
      ensures sel.nodes != [] && sel.nodes[0] in old(contexts) ==>
        r == Ok(old(contexts)[sel.nodes[0]]) && contexts == old(contexts)
      ensures sel.nodes != [] && sel.nodes[0] !in old(contexts) ==>
        r.Ok? && fresh(r.value) && r.value.elem == sel && contexts == old(contexts)[sel.nodes[0] := r.value]
      ensures r.Ok? ==> r.value.Valid()
    {
      if sel.nodes == [] {
        return Err(EmptySelection);
      }
      var dom := sel.nodes[0];
      if dom in contexts {
        return Ok(contexts[dom]);
      }
      var cc := new Context(this, sel);
      contexts := contexts[dom := cc];
      r := Ok(cc);
    }
  }

  /** The context cached on one DOM node: the closure `cc(classNames)` with
      its `get` and `init`, over the selection it was first reached from. */
  class Context {
    const facade: Facade
    const elem: Selection
    const dom: Element

    constructor (facade: Facade, elem: Selection)
      requires elem.nodes != []
      ensures this.facade == facade && this.elem == elem && Wf()
    {
      this.facade := facade;
      this.elem := elem;
      dom := elem.nodes[0];
    }

    /** `dom` is the first node of the captured selection. */
    ghost predicate Wf() {
      elem.nodes != [] && dom == elem.nodes[0]
    }

    /** The context is the one cached on `dom`. */
    ghost predicate Valid()
      reads facade
    {
      Wf() && dom in facade.contexts && facade.contexts[dom] == this
    }

    /** `cc(classNames)`: split the names given, or else the node's own
        class attribute, and for each registered name in order add the
        class to the selection and invoke the entry on the node; return the
        selection, or the error of the first invocation that threw.  Every
        coelement constructed is a new object (`made`), built by its entry's
        constructor, and no two names share one. */
    method Call(classNames: Option<string>)
      returns (r: Result<Selection>, ghost cos: seq<Coelement?>, ghost added: seq<string>, ghost made: set<Coelement>)
      requires Wf()
      modifies elem.nodes
      ensures var names := Split(if classNames.Some? then classNames.value else old(dom.className));
        Dispatch(facade.ccc, names, cos, old(dom.View())) ==
          (dom.View(), if r.Err? then Threw(r.error) else Done, added) &&
        Supplied(facade.ccc, names, cos, old(dom.View())) &&
        BuiltByEntries(facade.ccc, names, cos)
      ensures fresh(made) && forall c :: c in cos ==> c == null || c in made
      ensures r.Ok? ==> r.value == elem
      ensures forall n :: n in elem.nodes && n != dom ==> n.View() == WithClasses(old(n.View()), added)
      ensures forall n :: n in elem.nodes ==> n.props == old(n.props)
    {
      var ccc := facade.ccc;
      var names := Split(if classNames.Some? then classNames.value else dom.className);
      ghost var v0 := dom.View();
      added := [];
      ghost var orig := map n | n in elem.nodes :: n.View();
      cos := [];
      made := {};
      var o := Done;
      var i := 0;
      while i < |names| && o == Done
        invariant 0 <= i <= |names| && |cos| == i
        invariant Dispatch(ccc, names[..i], cos, v0) == (dom.View(), o, added)
        invariant Supplied(ccc, names[..i], cos, v0)
        invariant BuiltByEntries(ccc, names, cos)
        invariant fresh(made) && forall c :: c in cos ==> c == null || c in made
        invariant forall n :: n in elem.nodes && n != dom ==> n.View() == WithClasses(orig[n], added)
        invariant forall n :: n in elem.nodes ==> n.props == old(n.props)
      {
        o, cos, added, made := Step(ccc, names, i, v0, orig, cos, added, made);
        i := i + 1;
      }
      if o.Threw? {
        DispatchPrefixStops(ccc, names, i, cos, v0);
        r := Err(o.error);
      } else {
        assert names[..i] == names;
        r := Ok(elem);
      }
    }

    /** One turn of the loop of `Call`: visit the next name and extend the
        coelements, the classes added and the objects made so far by it. */
    method Step(ccc: map<string, ClassComponentConfiguration>, names: seq<string>, i: nat,
                ghost v0: ElemView, ghost orig: map<Element, ElemView>,
                ghost cos: seq<Coelement?>, ghost added: seq<string>, ghost made: set<Coelement>)
      returns (o: Outcome, ghost cos1: seq<Coelement?>, ghost added1: seq<string>, ghost made1: set<Coelement>)
      requires Wf() && i < |names| && |cos| == i
      requires Dispatch(ccc, names[..i], cos, v0) == (dom.View(), Done, added)
      requires Supplied(ccc, names[..i], cos, v0)
      requires BuiltByEntries(ccc, names, cos)
      requires forall c :: c in cos ==> c == null || c in made
      requires forall n :: n in elem.nodes && n != dom ==> n in orig && n.View() == WithClasses(orig[n], added)
      modifies elem.nodes
      ensures |cos1| == i + 1 && cos1[..i] == cos
      ensures cos1[i] != null ==> fresh(cos1[i])
      ensures BuiltByEntries(ccc, names, cos1)
      ensures Dispatch(ccc, names[..i + 1], cos1, v0) == (dom.View(), o, added1)
      ensures Supplied(ccc, names[..i + 1], cos1, v0)
      ensures fresh(made1 - made) && forall c :: c in cos1 ==> c == null || c in made1
      ensures forall n :: n in elem.nodes && n != dom ==> n.View() == WithClasses(orig[n], added1)
      ensures forall n :: n in elem.nodes ==> n.props == old(n.props)
    {
      var name := names[i];
      ghost var w := dom.View();
      ghost var co;
      o, co := Visit(ccc, name, orig, added);
      cos1 := cos + [co];
      added1 := if name in ccc then added + [name] else added;
      DispatchStep(ccc, names, i, cos, co, v0, w, added, dom.View(), o, cos1, added1);
      BuiltStep(ccc, names, cos, co, cos1);
      made1 := if co == null then made else made + {co};
    }

    /** One turn of the `forEach`: a registered name is added to the
        selection's classes and its entry invoked on the node; any other
        name changes nothing. */
    method Visit(ccc: map<string, ClassComponentConfiguration>, name: string,
                 ghost orig: map<Element, ElemView>, ghost added: seq<string>) returns (o: Outcome, ghost co: Coelement?)
      requires Wf()
      requires forall n :: n in elem.nodes && n != dom ==> n in orig && n.View() == WithClasses(orig[n], added)
      modifies elem.nodes
      ensures Dispatch(ccc, [name], [co], old(dom.View())) ==
        (dom.View(), o, if name in ccc then [name] else [])
      ensures Supplied(ccc, [name], [co], old(dom.View()))
      ensures co != null ==> fresh(co) && name in ccc && co.ctor == ccc[name].ctor
      ensures forall n :: n in elem.nodes && n != dom ==>
        n.View() == WithClasses(orig[n], if name in ccc then added + [name] else added)
      ensures forall n :: n in elem.nodes ==> n.props == old(n.props)
    {
      ghost var w := dom.View();
      if name in ccc {
        AddClassToAll(elem.nodes, name);
        forall n | n in elem.nodes && n != dom
          ensures n.View() == WithClasses(orig[n], added + [name])
        {
          WithClassesSnoc(orig[n], added, name);
        }
        o, co := ccc[name].InitElem(dom);
      } else {
        o, co := Done, null;
      }
      DispatchOne(ccc, name, co, w);
    }

    /** `cc.get(name)`: the coelement kept on the node's own property
        `COELEMENT_DATA_KEY_PREFIX + name`; an error when there is none. */
    function Get(name: string): (r: Result<Coelement>)
      reads dom
      ensures r.Ok? <==> facade.keyPrefix + name in dom.props
      ensures r.Ok? ==> r.value == dom.props[facade.keyPrefix + name]
      ensures r.Err? ==> r.error == MissingCoelement(name)
    {
      var key := facade.keyPrefix + name;
      if key in dom.props then Ok(dom.props[key]) else Err(MissingCoelement(name))
    }

    /** `cc.init(name)`: `cc(name)`, then `get(name)` on the context of the
        selection it returned, which is this one. */
    method Init(name: string) returns (r: Result<Coelement>, ghost cos: seq<Coelement?>, ghost made: set<Coelement>)
      requires Valid() && facade.Valid()
      modifies elem.nodes, facade`contexts
      ensures facade.contexts == old(facade.contexts)
      ensures var names := Split(name);
        var (v, o, added) := Dispatch(facade.ccc, names, cos, old(dom.View()));
        dom.View() == v &&
        (forall n :: n in elem.nodes && n != dom ==> n.View() == WithClasses(old(n.View()), added)) &&
        r == (if o.Threw? then Err(o.error) else Get(name)) &&
        Supplied(facade.ccc, names, cos, old(dom.View())) &&
        BuiltByEntries(facade.ccc, names, cos)
      ensures fresh(made) && forall c :: c in cos ==> c == null || c in made
      ensures forall n :: n in elem.nodes ==> n.props == old(n.props)
    {
      var sel;
      ghost var added;
      sel, cos, added, made := Call(Some(name));
      if sel.Err? {
        return Err(sel.error), cos, made;
      }
      var cc := facade.ContextOf(sel.value);
      assert cc == Ok(this);
      r := cc.value.Get(name);
    }
  }
}

/** The host the class components run on, reduced to what the core touches:
    an element node with its `className` attribute, the data stash that
    `elem.data(key, value)` writes, the node's own properties that the
    facade reads coelements from, and a trace of the calls the core makes
    into code it does not see (the coelement constructor, its `__cc_init__`
    hook, `ListenerInfo.bindTo`).  Whether such a call throws is part of the
    description of that code, given as data. */
module Dom {
  import opened ClassNames

  datatype Option<T> = None | Some(value: T)

  /** A listener descriptor (`ListenerInfo`) of a coelement class.  How it
      binds itself is not part of this model; `bindThrows` says whether its
      `bindTo(elem, coelem)` throws. */
  datatype Listener = Listener(event: string, selector: Option<string>, handler: string, bindThrows: bool)

  /** A coelement constructor as the core sees it: its `__events__` list if
      it has one, whether the instances it builds have an `__cc_init__`
      function, and whether `new` or the hook throws. */
  datatype Ctor = Ctor(
    name: string,
    events: Option<seq<Listener>>,
    hasInitHook: bool,
    newThrows: bool,
    hookThrows: bool)

  datatype Error =
    | EmptySelection
    | MissingCoelement(name: string)
    | ConstructorThrew(ctor: string)
    | InitHookThrew(ctor: string)
    | BindThrew(listener: Listener)

  /** How a statement that may throw ended. */
  datatype Outcome = Done | Threw(error: Error)

  datatype Result<T> = Ok(value: T) | Err(error: Error)

  /** The companion object built for one element by one component. */
  class Coelement {
    const ctor: Ctor
    var elem: Element?

    constructor (ctor: Ctor)
      ensures this.ctor == ctor && elem == null
    {
      this.ctor := ctor;
      elem := null;
    }
  }

  /** One observable step on an element, in the order it happened. */
  datatype Effect =
    | ClassAdded(name: string)                  // addClass changed the attribute
    | Constructed(ctor: Ctor)                   // `new Constructor(elem)` was called
    | InitHookCalled(co: Coelement)             // `co.__cc_init__(elem)` was called
    | Bound(listener: Listener, co: Coelement)  // `listener.bindTo(elem, co)` was called

  /** The part of an element that initialization reads and writes. */
  datatype ElemView = ElemView(className: string, data: map<string, Coelement>, log: seq<Effect>) {

    /** The element after `addClass(c)`: the attribute is rewritten and the
        change recorded, unless nothing changes. */
    function WithClass(c: string): (r: ElemView)
      ensures r.className == className <==> !ClassToken(c) || HasClass(className, c)
      ensures r.data == data
      ensures r.log == if r.className == className then log else log + [ClassAdded(c)]
    {
      var s := AddClass(className, c);
      if s == className then this else ElemView(s, data, log + [ClassAdded(c)])
    }
  }

  /** An element node. */
  class Element {
    var className: string
    var data: map<string, Coelement>
    var props: map<string, Coelement>
    var log: seq<Effect>

    constructor (className: string, props: map<string, Coelement>)
      ensures this.className == className && this.props == props
      ensures data == map[] && log == []
    {
      this.className := className;
      this.props := props;
      data := map[];
      log := [];
    }

    ghost function View(): (r: ElemView)
      reads this
    {
      ElemView(className, data, log)
    }

    predicate HasClass(c: string): (b: bool)
      reads this
      ensures b <==> c != "" && c in Split(className)
    {
      ClassNames.HasClass(className, c)
    }

    /** `$(elem).addClass(c)` on this node alone. */
    method AddClass(c: string)
      modifies this`className, this`log
      ensures View() == old(View()).WithClass(c)
    {
      var s := ClassNames.AddClass(className, c);
      if s != className {
        className := s;
        log := log + [ClassAdded(c)];
      }
    }
  }

  /** A jQuery object: the nodes it wraps, in order. */
  class Selection {
    const nodes: seq<Element>

    constructor (nodes: seq<Element>)
      ensures this.nodes == nodes
    {
      this.nodes := nodes;
    }
  }

  /** Adding a class that is already there changes nothing, so adding it
      twice is adding it once. */
  lemma WithClassTwice(v: ElemView, c: string)
    ensures v.WithClass(c).WithClass(c) == v.WithClass(c)
  {
    if ClassToken(c) {
      AddClassWords(v.className, c);
      AddClassWords(AddClass(v.className, c), c);
    }
  }

  /** `selection.addClass(c)`: each node of the selection, in order, gains
      `c`; a node listed twice gains it once. */
  method AddClassToAll(nodes: seq<Element>, c: string)
    modifies nodes
    ensures forall n :: n in nodes ==> n.View() == old(n.View()).WithClass(c)
    ensures forall n :: n in nodes ==> n.props == old(n.props)
  {
    ghost var done: set<Element> := {};
    var i := 0;
    while i < |nodes|
      invariant 0 <= i <= |nodes|
      invariant done == set k | 0 <= k < i :: nodes[k]
      invariant forall n :: n in nodes ==> n.View() == if n in done then old(n.View()).WithClass(c) else old(n.View())
      invariant forall n :: n in nodes ==> n.props == old(n.props)
    {
      var n := nodes[i];
      WithClassTwice(old(n.View()), c);
      n.AddClass(c);
      done := done + {n};
      i := i + 1;
    }
  }
}

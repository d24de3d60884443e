# class-component: initialization of elements as class components

This project models the core of the `class-component` library (v11). A
*class component* pairs a class name with a *coelement* constructor.
Initializing an element as that component happens at most once:

1. the element gets the marker class `name-initialized`;
2. the coelement is constructed;
3. the coelement's `__cc_init__` hook is called, or else the element is
   attached to the coelement;
4. every listener descriptor of the constructor is bound, in order;
5. the coelement is stored in the element's data under `__coelement:name`.

The `cc` property of a jQuery selection is created once per DOM node and
cached on it. It is the facade over this:

- `cc(names)` splits the names given (or, without a string, the node's own
  `className`) on `/\s+/`. For each name that has a registry entry, in order,
  it adds the class to the selection and invokes the entry on the node.
  Afterwards it returns the selection.
- `cc.get(name)` looks the coelement up on the node.
- `cc.init(name)` is `cc(name)` followed by `get(name)`.

The model files:

- `class_names.dfy` (module `ClassNames`) covers class-name strings:
  - the ECMAScript `\s` class and `split(/\s+/)`, including the leading and
    trailing empty pieces;
  - the class list of a `className` attribute;
  - `addClass` as a rewrite of the attribute.
- `dom.dfy` (module `Dom`) covers the host, reduced to what the core touches:
  - an `Element` class with its `className`, its data stash, its own
    properties, and a trace of the calls made into code the model cannot see
    (the constructor, the hook, `bindTo`);
  - a `Selection` of nodes;
  - the behaviour of foreign code (whether it throws, whether an instance has
    a hook) as data (`Ctor`, `Listener`).
- `class_component_configuration.dfy` (module `Configuration`) holds the
  `ClassComponentConfiguration` class:
  - `InitElem` and `ApplyCustomDefinition` are methods that update the
    element in place;
  - each is proved against the ghost functions `InitSpec` and `Apply`;
  - lemmas state the ordering, once-only and "nothing else changes"
    properties of those functions.
- `class_component.dfy` (module `ClassComponent`) holds:
  - the facade (`Facade`, with the per-node cache of contexts);
  - the per-node `Context` with `Call` (the `cc(...)` closure), `Get` and
    `Init`;
  - `Dispatch`, the function that specifies the closure's loop, and its
    lemmas.

A JavaScript exception is an `Outcome` (`Done | Threw(error)`) or an `Err`.
`assert(...)` failures in the facade are `Err` results too.

## Model

| member | source | states |
|---|---|---|
| ClassNames.Split | src/index.js:37 | `split(/\s+/)` gives at least one piece, and no piece holds whitespace. Only the first and last pieces can be empty. The first is empty exactly when the string is empty or starts with whitespace, the last exactly when it is empty or ends with whitespace. A string without whitespace is its own single piece. |
| ClassNames.SplitContent | src/index.js:37 | The pieces are the text between the maximal runs of whitespace: there is one run fewer than pieces, each run is non-empty whitespace, and putting the runs back between the pieces gives the string again. |
| ClassNames.WordsMembers | src/class-component-configuration.js:49 | The class list of an attribute consists of single class names, and holds exactly the non-empty pieces of its split. |
| ClassNames.NonEmptyMembers | src/class-component-configuration.js:49 | Dropping the empty pieces keeps exactly the non-empty ones. |
| ClassNames.SplitJoin | src/index.js:37 | Splitting an attribute written as class names separated by single spaces gives back those names. |
| ClassNames.WordsJoin | src/class-component-configuration.js:49-50 | The class list of such an attribute is the list it was written from, the empty list included. |
| ClassNames.HasClass | src/class-component-configuration.js:49 | `hasClass(c)` holds exactly when `c` is a non-empty piece of the split attribute. |
| ClassNames.AddClass | src/class-component-configuration.js:50 | The attribute is left as it is exactly when `c` is not a single class name or is already one of the classes. |
| ClassNames.AddClassWords | src/class-component-configuration.js:50 | `addClass(c)` appends `c` to the class list when it is missing, and leaves the list alone when it is present. |
| Dom.Element.HasClass | src/class-component-configuration.js:49 | The node has class `c` exactly when `c` is a non-empty piece of its split `className`. |
| Dom.ElemView.WithClass | src/index.js:39 | `addClass(c)` changes the attribute exactly when `c` is a single class name the element lacks. The data stash is untouched, and the trace records the change only when there is one. |
| Dom.Element.AddClass | src/class-component-configuration.js:50 | The node's state after `addClass(c)` is `WithClass(c)` of its state before. Data and properties are untouched. |
| Dom.WithClassTwice | src/index.js:39 | Adding a class twice is adding it once. |
| Dom.AddClassToAll | src/index.js:39 | `selection.addClass(c)` leaves each node, a node listed twice included, in the state `WithClass(c)` of its old state. No node's properties change. |
| Configuration.MarkerOf | src/class-component-configuration.js:9 | The marker is the class name followed by `-initialized`, 12 characters longer than the name. |
| Configuration.DataKey | src/class-component-configuration.js:31 | The data key is `__coelement:` followed by the class name, 12 characters longer than the name. |
| Configuration.SelectorOf | src/class-component-configuration.js:10 | The selector is `.`, the class name, `:not(.`, the marker and `)`, in that order, so it is 20 characters longer than twice the name. |
| Configuration.MarkerInjective | src/class-component-configuration.js:9 | Distinct class names have distinct markers. |
| Configuration.MarkerIsToken | src/class-component-configuration.js:9 | The marker of a class name is a class name, and differs from that name. |
| Configuration.SelectorInjective | src/class-component-configuration.js:10 | Distinct class names have distinct selectors. |
| Configuration.DataKeyInjective | src/class-component-configuration.js:31 | Distinct class names have distinct data keys. |
| Configuration.ClassComponentConfiguration.constructor | src/class-component-configuration.js:6-11 | Stores the name and the constructor. `initClass` is `className + "-initialized"` and `selector` is `"." + className + ":not(." + initClass + ")"`. |
| Configuration.FirstThrowing | src/class-component-configuration.js:29 | The position of the first listener whose `bindTo` throws: every listener before it binds cleanly. |
| Configuration.BindTraceMeaning | src/class-component-configuration.js:29 | The `forEach` calls `bindTo(elem, coelem)` on the listeners in list order, up to and including the first that throws: the listeners bound in its trace are exactly that prefix. It ends with that listener's error, or completes when none throws. |
| Configuration.BindTraceOnlyBinds | src/class-component-configuration.js:29 | The `forEach` does nothing but call `bindTo`, each time with the new coelement. |
| Configuration.BindStep | src/class-component-configuration.js:29 | After listeners that bound cleanly, the next listener's `bindTo` is called; when it throws, the listeners after it are not reached. |
| Configuration.BindTraceAppend | src/class-component-configuration.js:29 | Binding a concatenated list is binding the first part and, unless that threw, then the second. |
| Dom.Coelement.constructor | src/class-component-configuration.js:21 | `new Constructor(elem)` gives a new object of that constructor, with no element assigned yet. |
| Configuration.ClassComponentConfiguration.GetAllListenerInfo | src/class-component-configuration.js:39-41 | The listener list is the constructor's `__events__` when it has them, and empty otherwise. |
| Configuration.ClassComponentConfiguration.ApplyCustomDefinition | src/class-component-configuration.js:20-32 | The element's new state and the outcome are `Apply` of its old state, with a freshly allocated coelement. The configuration assigns `coelem.elem` only when construction did not throw and there is no `__cc_init__` hook. |
| Configuration.ApplyShape | src/class-component-configuration.js:20-32 | `applyCustomDefinition` leaves the class attribute alone. It extends the trace by the constructor call, the hook call and the bindings. It completes exactly when construction, the hook and every binding succeed, and only then stores the coelement under its key. |
| Configuration.ClassComponentConfiguration.InitElem | src/class-component-configuration.js:48-53 | On a marked element it returns no coelement and changes nothing. On an unmarked one it allocates one coelement of the configuration's constructor. Either way the new state and the outcome are `InitSpec` of the old state. |
| Configuration.InitUnmarked | src/class-component-configuration.js:49-51 | On an unmarked element, `initElem` is `addClass(marker)` followed by `applyCustomDefinition`. The class list gains exactly the marker. |
| Configuration.InitLog | src/class-component-configuration.js:50-51 | The trace grows by the marker's `addClass`, then by what `applyCustomDefinition` records. |
| Configuration.InitMarksBeforeConstructing | src/class-component-configuration.js:49-51 | The marker is added before the constructor is called and stays even when construction, the hook or a binding throws; no other class changes. The constructor is called once, and the hook exactly when the instance has one. |
| Configuration.TailConstructions | src/class-component-configuration.js:21 | `applyCustomDefinition` calls the constructor exactly once. |
| Configuration.TailHook | src/class-component-configuration.js:23-27 | The hook is called exactly when the constructed instance has one. |
| Configuration.BindPartOnlyBinds | src/class-component-configuration.js:29 | The bindings part holds `bindTo` calls with the new coelement only. |
| Configuration.TailBindings | src/class-component-configuration.js:29 | Once the coelement is built, the listeners bound are the attempted prefix of the listener list, in order. Otherwise none are bound. |
| Configuration.LogExtension | src/class-component-configuration.js:48-53 | The trace that `initElem` appends, read off: the earlier trace is kept; then come the marker, then the constructor call; there is one more construction; the hook is called exactly when the instance has one; the bindings are the attempted prefix. |
| Configuration.LogOrder | src/class-component-configuration.js:50-51 | The earlier trace is kept. The marker's `addClass` comes first, then the constructor call. The hook is called exactly when the instance has one. |
| Configuration.LogConstructions | src/class-component-configuration.js:21 | The appended trace holds one more construction. |
| Configuration.LogBindings | src/class-component-configuration.js:29 | The appended trace adds the attempted prefix of the listeners to the bindings. |
| Configuration.InitBindsThenStores | src/class-component-configuration.js:21-31 | On an unmarked element, listeners are bound in order, after construction and the hook succeeded, up to the first that throws. The call completes exactly when nothing threw, and only then is the coelement stored under `__coelement:name`. Otherwise the stash is unchanged. |
| Configuration.WithClassBindsNothing | src/class-component-configuration.js:50 | `addClass` binds no listener. |
| Configuration.InitWithoutEventsBindsNothing | src/class-component-configuration.js:39-41 | A constructor without `__events__` gives the empty listener list, so nothing is bound. |
| Configuration.InitTwice | src/class-component-configuration.js:48-53 | Initializing an element a second time changes nothing and completes. So the coelement is constructed, and each listener bound, by the first call only. |
| ClassComponent.Registered | src/index.js:38 | The registered names are exactly the names that have a registry entry. |
| ClassComponent.WithClassesSnoc | src/index.js:39 | Adding one more class after a list of classes is adding the longer list. |
| ClassComponent.DispatchAppend | src/index.js:37-42 | The loop over `a + b` is the loop over `a` and then, unless that threw, the loop over `b` from where `a` left the node. |
| ClassComponent.DispatchAdds | src/index.js:38-41 | The classes added are a prefix of the registered names, in split order. They are all of them when nothing threw, and not empty when something threw. Unregistered names are skipped. |
| ClassComponent.SuppliedAppend | src/index.js:37-42 | Coelements given for `a` and then for `b` make up coelements for `a + b`. |
| ClassComponent.DispatchOne | src/index.js:38-41 | A single registered name adds its class and invokes its entry on the node. A single unregistered name changes nothing. |
| ClassComponent.DispatchStep | src/index.js:37-42 | After a completed prefix of the names, one more name extends the loop by that name's step, and its coelement extends the coelements of the prefix. |
| ClassComponent.BuiltStep | src/class-component-configuration.js:21 | A turn whose coelement was built by its entry's constructor, and is none of the earlier ones, keeps every coelement of the loop built by its own entry and distinct from the others. |
| ClassComponent.DispatchStops | src/index.js:37-42 | Once an invocation threw, the later names are not reached. |
| ClassComponent.DispatchPrefixStops | src/index.js:37-42 | A loop that threw on a prefix of the names has the same result as the loop over all of them. |
| ClassComponent.WithClassKeeps | src/index.js:39 | `addClass` takes no class away, and adds a class name it is given. |
| ClassComponent.InitSpecKeeps | src/class-component-configuration.js:48-53 | `initElem` takes no class away and leaves the element marked. |
| ClassComponent.DispatchMarks | src/index.js:37-42 | The loop takes no class away from the node. Every name it added is on the node with its component's marker, even when an invocation threw. |
| ClassComponent.DispatchMarksAll | src/index.js:36-45 | When `cc(...)` completes, the node carries every registered name it was given, each with its marker. |
| ClassComponent.DispatchMarkedIsNoop | src/index.js:36-45 | On a node that already carries each registered name and its marker, `cc(...)` changes nothing and completes. |
| ClassComponent.DispatchTwice | src/index.js:36-45 | Calling `cc(names)` again after a call that completed changes nothing on the node. |
| ClassComponent.Facade.constructor | src/index.js:13-19 | The installed facade holds the registry and the key prefix, and no node has a context yet. |
| ClassComponent.Facade.ContextOf | src/index.js:22-46 | The `cc` getter fails on an empty selection. It returns the context cached on the first node when there is one. Otherwise it creates a context for this selection and caches it on that node, and nothing else in the cache changes. |
| ClassComponent.Context.constructor | src/index.js:23-24 | A context captures the selection and its first node. |
| ClassComponent.Context.Call | src/index.js:36-45 | The node's new state and the outcome are `Dispatch` of the split names from its old state. Every other node of the selection gains the added classes in order. The result is the selection itself when nothing threw, and the error of the invocation that threw otherwise. Every coelement constructed is a new object, built by the constructor of the entry its name is registered under, and no two names share one. Node properties are untouched. |
| ClassComponent.Context.Step | src/index.js:38-41 | One turn of the loop extends the node's `Dispatch` over the names done so far by one name. The rest of the selection gains that name's class. A coelement it constructs is a new object of the entry's constructor, so it differs from every earlier one. |
| ClassComponent.Context.Visit | src/index.js:38-41 | One turn of the `forEach`: the same step as `Dispatch` over the single name, on the node and on the rest of the selection. A coelement it constructs is a new object of the entry's constructor. |
| ClassComponent.Context.Get | src/index.js:53-58 | `get(name)` succeeds exactly when the node has the property `prefix + name`, and returns its value. It fails naming the coelement otherwise. |
| ClassComponent.Context.Init | src/index.js:61 | `init(name)` is `cc(name)` over the split of `name`, then `get(name)` on the same, unchanged context. An error of `cc(name)` is returned as is. Every coelement constructed is a new object of its entry's constructor, and no two names share one. |

## Left out

- `gulpfile.js` is build tooling with no behaviour of the library.
- `src/decorators.js` is not part of this model. Its method-emission decorators (`emit`, `trigger`) wrap coelement methods so that calling them triggers events, around the call or once its promise settles. That happens after initialization, which is all this model covers. Its `on` decorator and listener descriptor builders only record descriptors in a constructor's `__events__`, which the model takes as given data (`Ctor.events`).
- `ListenerInfo.bindTo` is recorded in the trace as an abstract call, together with whether it throws. Delegated event binding itself is not modelled.
- `src/class-component-manager.js` (`register`, `init`, `ccc`) is not part of this model. The registry is a map from name to a `ClassComponentConfiguration` of that name, and each registered name is assumed to be a single class name (non-empty, without whitespace); the lemmas about marking (`DispatchMarks`, `DispatchMarksAll`, `DispatchMarkedIsNoop`, `DispatchTwice`) rely on this. Invoking an entry on the node is assumed to be that configuration's `initElem` on the node.
- `src/assert.js` is not part of this model: a failed assertion is an `Err` result.
- `src/const.js` is not part of this model: `COELEMENT_DATA_KEY_PREFIX` is the facade's `keyPrefix`, an arbitrary string.
- `src/jquery.js` is not part of this model. The data stash written by `elem.data(...)` and the node properties read by `get` are kept as separate maps, since the modules that would link them (`src/jquery.js`, and `src/const.js` with `COELEMENT_DATA_KEY_PREFIX`) are outside this model. So `Init` returns whatever `get` finds, and the model does not claim it is the coelement just built.
- `addClass`, `hasClass` and the selection are modelled on a string attribute. HTML whitespace is taken to be the same set as `\s`. `addClass` of an empty string or of a value with spaces changes nothing in the model, which is stricter than jQuery.
- ClassNames.AddClass: rewrites the attribute, as the class list joined by single spaces with the class appended, only when the class is missing. jQuery also collapses the whitespace of an attribute that already holds the class. The class list is the same either way; only the raw string and the `ClassAdded` trace entry differ.
- Constructors, hooks and `bindTo` are assumed to touch the element only through what the trace records. What they do besides, and reentrant calls of `cc` from inside them, are not modelled.
- The guard `if (!$.cc)` that installs the facade once per page, and `Object.defineProperty` on `$.fn`, are not modelled: there is a single `Facade`.
- Registry lookups are map membership. Names inherited from `Object.prototype` (`constructor`, `toString`) would be truthy in the source but are not treated specially.
- A node's `dom.cc` property is modelled as its entry in the facade's `contexts` map.
- `cc(x)` with a non-string `x` is `Call(None)`.
- Configuration.ClassComponentConfiguration.GetAllListenerInfo: reads `__events__` from the `Ctor` value the configuration holds, which is fixed when the configuration is made. The source reads `Constructor.__events__` again at every `applyCustomDefinition`, so listeners that a decorator adds after registration are bound too. In the model, such a constructor is a different `Ctor` value, given to a new configuration.
- Configuration.ClassComponentConfiguration.ApplyCustomDefinition: the model's constructor leaves `elem` unassigned, and constructors and hooks never assign it, so the contract can say what `coelem.elem` is afterwards. In the source a constructor or `__cc_init__` may set `this.elem` itself; the only promise is that the configuration does not assign it when there is a hook.
- Context.Init: does not state that the coelement returned is the one constructed, because the data stash and the properties `get` reads are separate maps here (see above).

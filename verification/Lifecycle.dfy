/** The life of scheduling contexts: the reconciler, the queue, the workers and the
    environment as atomic steps over objects, HPAs, queued keys and contexts. */
module Lifecycle {
  import opened Options

  datatype Key = Key(namespace: string, name: string)

  /** A reference to an HPA; an empty namespace means that of the referring object. */
  datatype Reference = Reference(namespace: string, name: string)

  datatype Spec = Spec(template: Option<Reference>, hpaRef: Option<Reference>, triggers: nat)

  datatype Object = Object(generation: nat, deleting: bool, finalizer: bool, spec: Spec)

  /** `contexts` maps each key with a scheduling context to the generation it was built from. */
  datatype World = World(objects: map<Key, Object>, hpas: set<Key>, queue: seq<Key>, contexts: map<Key, nat>)

  const QUEUE_SIZE: nat := 100

  // ---------- The scheduler's part ----------

  /** The contexts after a worker has processed `key`, whose object is `found` if it still exists. */
  function Processed(contexts: map<Key, nat>, key: Key, found: Option<Object>): map<Key, nat> {
    if found.None? then contexts - {key}
    else if found.value.spec.hpaRef.None? then contexts
    else contexts[key := found.value.generation]
  }

  function Lookup(w: World, key: Key): Option<Object> {
    if key in w.objects then Some(w.objects[key]) else None
  }

  function Worked(w: World): World {
    if w.queue == [] then w
    else w.(queue := w.queue[1..], contexts := Processed(w.contexts, w.queue[0], Lookup(w, w.queue[0])))
  }

  // ---------- The reconciler's part ----------

  function TemplateKey(key: Key, template: Reference): Key {
    Key(if template.namespace == "" then key.namespace else template.namespace,
        if template.name == "" then key.name + "-generated" else template.name)
  }

  function ReferenceKey(key: Key, reference: Reference): Key {
    Key(if reference.namespace == "" then key.namespace else reference.namespace, reference.name)
  }

  /** The HPAs after ensuring the template's one; owner references cannot cross namespaces. */
  function Ensured(hpas: set<Key>, key: Key, spec: Spec): Result<set<Key>> {
    if spec.template.None? || TemplateKey(key, spec.template.value) in hpas then Ok(hpas)
    else if TemplateKey(key, spec.template.value).namespace != key.namespace then Err("failed to set owner reference")
    else Ok(hpas + {TemplateKey(key, spec.template.value)})
  }

  predicate ReferenceValid(hpas: set<Key>, key: Key, spec: Spec) {
    spec.hpaRef.None? || spec.hpaRef.value.name == "" || ReferenceKey(key, spec.hpaRef.value) in hpas
  }

  predicate WantsScheduling(spec: Spec) {
    spec.triggers > 0 && spec.hpaRef.Some? && spec.hpaRef.value.name != ""
  }

  function Enqueued(w: World, key: Key, spec: Spec): World {
    if WantsScheduling(spec) && |w.queue| < QUEUE_SIZE then w.(queue := w.queue + [key]) else w
  }

  /** Removing the finalizer, the last one, lets the API server drop the object. */
  function DeletionHandled(w: World, key: Key): World
    requires key in w.objects
  {
    if !w.objects[key].finalizer then w
    else w.(contexts := w.contexts - {key}, objects := w.objects - {key})
  }

  function Reconciled(w: World, key: Key): World {
    if key !in w.objects then w
    else if w.objects[key].deleting then DeletionHandled(w, key)
    else
      var spec := w.objects[key].spec;
      var w1 := w.(objects := w.objects[key := w.objects[key].(finalizer := true)]);
      match Ensured(w1.hpas, key, spec)
      case Err(_) => w1
      case Ok(hpas) =>
        var w2 := w1.(hpas := hpas);
        if ReferenceValid(hpas, key, spec) then Enqueued(w2, key, spec) else w2
  }

  // ---------- Runs ----------

  datatype Action =
    | Create(key: Key, spec: Spec)
    | Update(key: Key, spec: Spec)
    | Delete(key: Key)
    | CreateHpa(key: Key)
    | DeleteHpa(key: Key)
    | Reconcile(key: Key)
    | Work

  function Next(w: World, action: Action): World {
    match action
    case Create(key, spec) =>
      if key in w.objects then w else w.(objects := w.objects[key := Object(1, false, false, spec)])
    case Update(key, spec) =>
      if key !in w.objects then w
      else w.(objects := w.objects[key := w.objects[key].(generation := w.objects[key].generation + 1, spec := spec)])
    case Delete(key) =>
      if key !in w.objects || w.objects[key].deleting then w
      else if w.objects[key].finalizer then
        w.(objects := w.objects[key := w.objects[key].(generation := w.objects[key].generation + 1, deleting := true)])
      else w.(objects := w.objects - {key})
    case CreateHpa(key) => w.(hpas := w.hpas + {key})
    case DeleteHpa(key) => w.(hpas := w.hpas - {key})
    case Reconcile(key) => Reconciled(w, key)
    case Work => Worked(w)
  }

  function After(w: World, actions: seq<Action>): World
    decreases |actions|
  {
    if actions == [] then w else After(Next(w, actions[0]), actions[1..])
  }

  const EMPTY: World := World(map[], {}, [], map[])

  // ---------- No context outlives its object ----------

  predicate Held(w: World, key: Key) {
    key in w.objects && w.objects[key].finalizer
  }

  /** Queued keys that still exist, and all keys with a context, are held by the finalizer. */
  predicate Owned(w: World) {
    && (forall key :: key in w.queue && key in w.objects ==> Held(w, key))
    && (forall key :: key in w.contexts ==> Held(w, key))
  }

  /** No action creates an object that does not exist while its key is still queued. */
  predicate NoEarlyReuse(w: World, actions: seq<Action>)
    decreases |actions|
  {
    actions != [] ==>
      && (actions[0].Create? ==> actions[0].key !in w.queue || actions[0].key in w.objects)
      && NoEarlyReuse(Next(w, actions[0]), actions[1..])
  }

  /** Each action keeps ownership; creation does so exactly when the key is not still queued. */
  lemma OwnedStep(w: World, action: Action)
    requires Owned(w)
    ensures Owned(Next(w, action)) <==> !(action.Create? && action.key in w.queue && action.key !in w.objects)
  {
    match action {
      case Create(key, _) =>
        if key in w.queue && key !in w.objects {
          assert !Held(Next(w, action), key);
        }
      case Update(key, _) =>
        assert forall k :: Held(w, k) ==> Held(Next(w, action), k);
      case Delete(key) =>
        assert forall k :: k != key && Held(w, k) ==> Held(Next(w, action), k);
      case CreateHpa(_) =>
      case DeleteHpa(_) =>
      case Reconcile(key) => OwnedReconcile(w, key);
      case Work => OwnedWork(w);
    }
  }

  lemma OwnedReconcile(w: World, key: Key)
    requires Owned(w)
    ensures Owned(Reconciled(w, key))
  {
    var w' := Reconciled(w, key);
    assert forall k :: k != key && Held(w, k) ==> Held(w', k);
    assert w'.queue == w.queue || w'.queue == w.queue + [key];
  }

  lemma OwnedWork(w: World)
    requires Owned(w)
    ensures Owned(Worked(w))
  {
    if w.queue != [] {
      assert w.queue[0] in w.queue;
      assert forall k :: k in w.queue[1..] ==> k in w.queue;
      assert forall k :: Held(w, k) ==> Held(Worked(w), k);
    }
  }

  /** No context outlives its object, over every run without early key reuse. */
  lemma {:induction false} ContextsAreOwned(w: World, actions: seq<Action>)
    requires Owned(w) && NoEarlyReuse(w, actions)
    ensures Owned(After(w, actions))
    decreases |actions|
  {
    if actions != [] {
      OwnedStep(w, actions[0]);
      ContextsAreOwned(Next(w, actions[0]), actions[1..]);
    }
  }

  /** With early reuse a context can be orphaned: a key deleted and created again while
      still queued gets a context for an object that no finalizer holds. */
  lemma EarlyReuseOrphansContext(key: Key, spec: Spec)
    requires WantsScheduling(spec) && spec.template.None?
    ensures var w := After(EMPTY,
                           [CreateHpa(ReferenceKey(key, spec.hpaRef.value)), Create(key, spec), Reconcile(key),
                            Delete(key)]
                                  + [Reconcile(key), Create(key, spec), Work, Delete(key)]);
            key !in w.objects && key in w.contexts && w.queue == []
  {
    hide Next, After;
    var hpa := ReferenceKey(key, spec.hpaRef.value);
    DeletedWhileQueued(key, spec, hpa);
    RecreatedWhileQueued(key, spec, hpa);
    AfterSplits(EMPTY, [CreateHpa(hpa), Create(key, spec), Reconcile(key), Delete(key)],
                [Reconcile(key), Create(key, spec), Work, Delete(key)]);
  }

  lemma {:induction false} AfterSplits(w: World, before: seq<Action>, after: seq<Action>)
    ensures After(w, before + after) == After(After(w, before), after)
    decreases |before|
  {
    if before == [] {
      assert before + after == after;
    } else {
      assert (before + after)[1..] == before[1..] + after;
      AfterSplits(Next(w, before[0]), before[1..], after);
    }
  }

  lemma DeletedWhileQueued(key: Key, spec: Spec, hpa: Key)
    requires WantsScheduling(spec) && spec.template.None? && hpa == ReferenceKey(key, spec.hpaRef.value)
    ensures After(EMPTY, [CreateHpa(hpa), Create(key, spec), Reconcile(key), Delete(key)])
         == World(map[key := Object(2, true, true, spec)], {hpa}, [key], map[])
  {
    var w1 := World(map[], {hpa}, [], map[]);
    var w2 := w1.(objects := map[key := Object(1, false, false, spec)]);
    var w3 := w2.(objects := map[key := Object(1, false, true, spec)], queue := [key]);
    var w4 := w3.(objects := map[key := Object(2, true, true, spec)]);
    assert Next(EMPTY, CreateHpa(hpa)) == w1;
    assert Next(w1, Create(key, spec)) == w2;
    assert Next(w2, Reconcile(key)) == w3;
    assert Next(w3, Delete(key)) == w4;
    AfterFour(EMPTY, [CreateHpa(hpa), Create(key, spec), Reconcile(key), Delete(key)], w1, w2, w3);
  }

  lemma RecreatedWhileQueued(key: Key, spec: Spec, hpa: Key)
    requires WantsScheduling(spec)
    ensures After(World(map[key := Object(2, true, true, spec)], {hpa}, [key], map[]),
                  [Reconcile(key), Create(key, spec), Work, Delete(key)])
         == World(map[], {hpa}, [], map[key := 1])
  {
    var w4 := World(map[key := Object(2, true, true, spec)], {hpa}, [key], map[]);
    var w5 := World(map[], {hpa}, [key], map[]);
    var w6 := w5.(objects := map[key := Object(1, false, false, spec)]);
    var w7 := w6.(queue := [], contexts := map[key := 1]);
    var w8 := w7.(objects := map[]);
    assert Next(w4, Reconcile(key)) == w5;
    assert Next(w5, Create(key, spec)) == w6;
    assert Next(w6, Work) == w7;
    assert Next(w7, Delete(key)) == w8;
    AfterFour(w4, [Reconcile(key), Create(key, spec), Work, Delete(key)], w5, w6, w7);
  }

  lemma AfterFour(w: World, actions: seq<Action>, w1: World, w2: World, w3: World)
    requires |actions| == 4
    requires w1 == Next(w, actions[0]) && w2 == Next(w1, actions[1]) && w3 == Next(w2, actions[2])
    ensures After(w, actions) == Next(w3, actions[3])
  {
    hide Next;
    assert actions[1..][1..] == actions[2..] && actions[2..][1..] == actions[3..] && actions[3..][1..] == [];
    assert After(w3, actions[3..]) == Next(w3, actions[3]);
    assert After(w2, actions[2..]) == After(w3, actions[3..]);
    assert After(w1, actions[1..]) == After(w2, actions[2..]);
  }

  // ---------- What a reconcile does ----------

  /** The template's HPA is there already, or may be created: owner references cannot cross namespaces. */
  predicate TemplateAllows(hpas: set<Key>, key: Key, spec: Spec) {
    spec.template.Some? ==>
      var template := spec.template.value;
      || template.namespace == "" || template.namespace == key.namespace
      || Key(template.namespace, if template.name == "" then key.name + "-generated" else template.name) in hpas
  }

  /** Reconciling a live object adds the finalizer and touches neither its spec, nor its generation, nor any other
      object or context; of HPAs it creates at most the one its template names, in the template's namespace or
      the object's own, exactly if the template allows it. */
  lemma ReconcileKeeps(w: World, key: Key)
    requires key in w.objects && !w.objects[key].deleting
    ensures var w', spec := Reconciled(w, key), w.objects[key].spec;
            && w'.objects == w.objects[key := Object(w.objects[key].generation, false, true, spec)]
            && w'.contexts == w.contexts
            && (spec.template.None? || !TemplateAllows(w.hpas, key, spec) ==> w'.hpas == w.hpas)
            && (spec.template.Some? && TemplateAllows(w.hpas, key, spec) ==>
                  var template := spec.template.value;
                  w'.hpas == w.hpas + {Key(if template.namespace == "" then key.namespace else template.namespace,
                                           if template.name == "" then key.name + "-generated" else template.name)})
  {
  }

  /** Reconciling an object marked for deletion that has the finalizer removes it and its context, and nothing else. */
  lemma ReconcileDeletes(w: World, key: Key)
    requires key in w.objects && w.objects[key].deleting && w.objects[key].finalizer
    ensures var w' := Reconciled(w, key);
            && key !in w'.objects && key !in w'.contexts && w'.queue == w.queue && w'.hpas == w.hpas
            && (forall other :: other != key ==> (other in w'.objects <==> other in w.objects))
            && (forall other :: other in w'.objects ==> w'.objects[other] == w.objects[other])
            && (forall other :: other != key ==> (other in w'.contexts <==> other in w.contexts))
            && (forall other :: other in w'.contexts ==> w'.contexts[other] == w.contexts[other])
  {
  }

  /** The object refers by name to an HPA that exists, in the reference's namespace or, if that is empty, its own. */
  predicate RefersToExisting(hpas: set<Key>, key: Key, spec: Spec) {
    && spec.hpaRef.Some? && spec.hpaRef.value.name != ""
    && exists hpa :: hpa in hpas && hpa.name == spec.hpaRef.value.name
         && hpa.namespace == if spec.hpaRef.value.namespace == "" then key.namespace else spec.hpaRef.value.namespace
  }

  /** Exactly when a reconcile sends the key to the scheduler: the object is live, has triggers and a named
      reference, its template allows it, the HPA it refers to exists after the step, and there is room. */
  lemma ReconcileEnqueuesIff(w: World, key: Key)
    ensures var w' := Reconciled(w, key);
            && (w'.queue == w.queue || w'.queue == w.queue + [key])
            && (|w'.queue| > |w.queue| <==>
                && key in w.objects && !w.objects[key].deleting
                && w.objects[key].spec.triggers > 0
                && TemplateAllows(w.hpas, key, w.objects[key].spec)
                && RefersToExisting(w'.hpas, key, w.objects[key].spec)
                && |w.queue| < 100)
  {
    if key in w.objects && !w.objects[key].deleting && w.objects[key].spec.hpaRef.Some? {
      var spec := w.objects[key].spec;
      ResolvedIff(Reconciled(w, key).hpas, key, spec);
    }
  }

  lemma ResolvedIff(hpas: set<Key>, key: Key, spec: Spec)
    requires spec.hpaRef.Some?
    ensures RefersToExisting(hpas, key, spec)
       <==> spec.hpaRef.value.name != "" && ReferenceKey(key, spec.hpaRef.value) in hpas
  {
    var reference := spec.hpaRef.value;
    var target := ReferenceKey(key, reference);
    if target in hpas {
      assert target.name == reference.name;
    }
  }

  /** In no world of the run does the key's object refer to an existing HPA. */
  predicate NeverResolves(w: World, actions: seq<Action>, key: Key)
    decreases |actions|
  {
    && (key in w.objects ==> !RefersToExisting(w.hpas, key, w.objects[key].spec))
    && (actions != [] ==> NeverResolves(Next(w, actions[0]), actions[1..], key))
  }

  /** A key that never refers to an existing HPA never joins the queue and never gets a context. */
  lemma {:induction false} UnresolvedNeverScheduled(w: World, actions: seq<Action>, key: Key)
    requires NeverResolves(w, actions, key) && key !in w.queue && key !in w.contexts
    ensures key !in After(w, actions).queue && key !in After(w, actions).contexts
    decreases |actions|
  {
    hide RefersToExisting;
    if actions != [] {
      UnresolvedStep(w, actions[0], key);
      UnresolvedNeverScheduled(Next(w, actions[0]), actions[1..], key);
    }
  }

  lemma UnresolvedStep(w: World, action: Action, key: Key)
    requires key !in w.queue && key !in w.contexts
    requires var next := Next(w, action);
             key in next.objects ==> !RefersToExisting(next.hpas, key, next.objects[key].spec)
    ensures key !in Next(w, action).queue && key !in Next(w, action).contexts
  {
    hide RefersToExisting;
    match action {
      case Reconcile(other) =>
        ReconcileEnqueuesIff(w, other);
        if key in w.objects && !w.objects[key].deleting {
          ReconcileKeeps(w, key);
        }
      case _ =>
    }
  }

  /** A worker step settles exactly the first key of the queue: it loses its context if its object is gone, gets one
      of the object's generation if that has a reference, named or not, and otherwise keeps what it has. */
  lemma WorkSettlesFirst(w: World)
    requires w.queue != []
    ensures var w', key := Worked(w), w.queue[0];
            && w'.objects == w.objects && w'.hpas == w.hpas && w.queue == [key] + w'.queue
            && (key !in w.objects ==> key !in w'.contexts)
            && (key in w.objects && w.objects[key].spec.hpaRef.Some? ==> UpToDate(w', key))
            && (key in w.objects && w.objects[key].spec.hpaRef.None? ==> w'.contexts == w.contexts)
            && (forall other :: other != key ==> (other in w'.contexts <==> other in w.contexts))
            && (forall other :: other != key && other in w.contexts ==> w'.contexts[other] == w.contexts[other])
  {
  }

  // ---------- Convergence ----------

  /** A live object with triggers and an HPA reference whose HPA exists, or will once its template is ensured. */
  predicate Eligible(w: World, key: Key) {
    && key in w.objects
    && !w.objects[key].deleting
    && WantsScheduling(w.objects[key].spec)
    && Ensured(w.hpas, key, w.objects[key].spec).Ok?
    && ReferenceValid(Ensured(w.hpas, key, w.objects[key].spec).value, key, w.objects[key].spec)
  }

  predicate UpToDate(w: World, key: Key) {
    key in w.objects && key in w.contexts && w.contexts[key] == w.objects[key].generation
  }

  predicate Served(w: World, key: Key) {
    key in w.queue || UpToDate(w, key)
  }

  predicate Quiet(action: Action) {
    action.Reconcile? || action.Work?
  }

  lemma EligibleKept(w: World, action: Action, key: Key)
    requires Quiet(action) && Eligible(w, key)
    ensures Eligible(Next(w, action), key) && Next(w, action).objects[key].generation == w.objects[key].generation
  {
    hide ReferenceKey, TemplateKey, WantsScheduling;
  }

  lemma ReconcileServes(w: World, key: Key)
    requires Eligible(w, key) && |w.queue| < QUEUE_SIZE
    ensures Served(Reconciled(w, key), key)
  {
    assert key in w.queue + [key];
  }

  lemma ServedKept(w: World, action: Action, key: Key)
    requires Quiet(action) && Eligible(w, key) && Served(w, key)
    ensures Served(Next(w, action), key)
  {
    EligibleKept(w, action, key);
    if action.Reconcile? {
      assert Next(w, action).queue == w.queue || Next(w, action).queue == w.queue + [action.key];
    } else if w.queue != [] {
      assert key in w.queue ==> key == w.queue[0] || key in w.queue[1..];
    }
  }

  lemma {:induction false} StaysServed(w: World, actions: seq<Action>, key: Key)
    requires (forall i :: 0 <= i < |actions| ==> Quiet(actions[i])) && Eligible(w, key) && Served(w, key)
    ensures Served(After(w, actions), key)
    decreases |actions|
  {
    if actions != [] {
      EligibleKept(w, actions[0], key);
      ServedKept(w, actions[0], key);
      StaysServed(Next(w, actions[0]), actions[1..], key);
    }
  }

  /** Convergence after quiescence: once specs stop changing, any run of reconciles and worker
      steps that reconciles the key at least once with room in the queue, and ends with the
      queue drained, leaves an eligible key with a context of its object's generation. */
  lemma {:induction false} Converges(w: World, actions: seq<Action>, key: Key, at: nat)
    requires (forall i :: 0 <= i < |actions| ==> Quiet(actions[i])) && Eligible(w, key)
    requires at < |actions| && actions[at] == Reconcile(key) && |After(w, actions[..at]).queue| < QUEUE_SIZE
    requires After(w, actions).queue == []
    ensures UpToDate(After(w, actions), key)
    decreases |actions|
  {
    EligibleKept(w, actions[0], key);
    if at == 0 {
      assert actions[..0] == [];
      ReconcileServes(w, key);
      StaysServed(Next(w, actions[0]), actions[1..], key);
    } else {
      assert actions[..at][1..] == actions[1..][..at - 1];
      Converges(Next(w, actions[0]), actions[1..], key, at - 1);
    }
  }

  /** The other half: a live key whose spec no longer wants scheduling and that is not queued is never queued
      again, and keeps the context it has, or has none, with its generation. */
  lemma {:induction false} UnwantedKeepsContext(w: World, actions: seq<Action>, key: Key)
    requires forall i :: 0 <= i < |actions| ==> Quiet(actions[i])
    requires key in w.objects && !w.objects[key].deleting && !WantsScheduling(w.objects[key].spec) && key !in w.queue
    ensures var after := After(w, actions);
            && key !in after.queue
            && key in after.objects && after.objects[key].generation == w.objects[key].generation
            && (key in after.contexts <==> key in w.contexts)
            && (key in w.contexts ==> after.contexts[key] == w.contexts[key])
    decreases |actions|
  {
    if actions != [] {
      UnwantedStep(w, actions[0], key);
      UnwantedKeepsContext(Next(w, actions[0]), actions[1..], key);
    }
  }

  lemma UnwantedStep(w: World, action: Action, key: Key)
    requires Quiet(action)
    requires key in w.objects && !w.objects[key].deleting && !WantsScheduling(w.objects[key].spec) && key !in w.queue
    ensures var next := Next(w, action);
            && key in next.objects && next.objects[key] == w.objects[key].(finalizer := next.objects[key].finalizer)
            && key !in next.queue
            && (key in next.contexts <==> key in w.contexts)
            && (key in w.contexts ==> next.contexts[key] == w.contexts[key])
  {
    hide ReferenceKey, TemplateKey, WantsScheduling, Ensured, ReferenceValid;
  }

  /** So an object edited to drop its triggers or its reference keeps its outdated context for good: no quiet
      run brings it up to date. */
  lemma EditedAwayStaysOutdated(w: World, key: Key, spec: Spec, actions: seq<Action>)
    requires UpToDate(w, key) && !w.objects[key].deleting && key !in w.queue && !WantsScheduling(spec)
    requires forall i :: 0 <= i < |actions| ==> Quiet(actions[i])
    ensures var after := After(Next(w, Update(key, spec)), actions);
            key in after.contexts && key in after.objects && after.contexts[key] + 1 == after.objects[key].generation
  {
    UnwantedKeepsContext(Next(w, Update(key, spec)), actions, key);
  }

  /** Worker steps until the queue is empty; each one shortens it. */
  function Drained(w: World): (w': World)
    ensures w'.queue == [] && w'.objects == w.objects && w'.hpas == w.hpas
    decreases |w.queue|
  {
    if w.queue == [] then w else Drained(Worked(w))
  }

  /** Reconcile the keys one after another, draining the queue before each and at the end. */
  function SettledWorld(w: World, keys: seq<Key>): World
    decreases |keys|
  {
    if keys == [] then Drained(w) else SettledWorld(Reconciled(Drained(w), keys[0]), keys[1..])
  }

  lemma {:induction false} DrainKeeps(w: World, key: Key)
    requires Eligible(w, key)
    ensures Eligible(Drained(w), key) && (Served(w, key) ==> Served(Drained(w), key))
    decreases |w.queue|
  {
    if w.queue != [] {
      EligibleKept(w, Work, key);
      if Served(w, key) {
        ServedKept(w, Work, key);
      }
      DrainKeeps(Worked(w), key);
    }
  }

  /** Such a schedule always exists, however many objects there are: it serves every eligible key it names. */
  lemma {:induction false} SettlingConverges(w: World, keys: seq<Key>, key: Key)
    requires Eligible(w, key) && (key in keys || Served(w, key))
    ensures UpToDate(SettledWorld(w, keys), key) && SettledWorld(w, keys).queue == []
    decreases |keys|
  {
    hide Eligible, Reconciled, Worked, Drained;
    DrainKeeps(w, key);
    if keys != [] {
      var w1 := Drained(w);
      EligibleKept(w1, Reconcile(keys[0]), key);
      if key == keys[0] {
        ReconcileServes(w1, key);
      } else if Served(w, key) {
        ServedKept(w1, Reconcile(keys[0]), key);
      }
      SettlingConverges(Reconciled(w1, keys[0]), keys[1..], key);
    }
  }
}

/** The objects that carry out the lifecycle steps: the scheduler with its contexts and
    the reconciler with the API server's objects and the queue. Each method is tied to the
    step function of module Lifecycle. */
module ControlPlane {
  import opened Options
  import opened Lifecycle

  /** A scheduling context as the scheduler holds it: running from its start until it is stopped. */
  class Context {
    const key: Key
    const generation: nat
    var running: bool

    constructor Initialize(key: Key, generation: nat)
      ensures this.key == key && this.generation == generation && !running
    {
      this.key, this.generation, running := key, generation, false;
    }

    method Start()
      modifies this
      ensures running
    {
      running := true;
    }

    method Stop()
      modifies this
      ensures !running
    {
      running := false;
    }
  }

  class Scheduler {
    var contexts: map<Key, Context>
    var done: bool
    ghost var created: set<Context>  // every context ever made

    /** One live context per key: of all contexts ever made, those running are exactly those in the map. */
    ghost predicate Valid()
      reads this, created
    {
      && (forall key :: key in contexts ==> contexts[key] in created && contexts[key].key == key)
      && (forall c :: c in created ==> (c.running <==> c.key in contexts && contexts[c.key] == c))
    }

    function Generations(): map<Key, nat>
      reads this
    {
      map key | key in contexts :: contexts[key].generation
    }

    constructor ()
      ensures Valid() && contexts == map[] && created == {} && !done
    {
      contexts, done, created := map[], false, {};
    }

    method RemoveContext(key: Key)
      requires Valid()
      modifies this`contexts, created
      ensures Valid() && created == old(created)
      ensures contexts == old(contexts) - {key} && Generations() == old(Generations()) - {key}
      ensures forall c :: c in created ==> (c.running <==> old(c.running) && c.key != key)
    {
      if key !in contexts {
        return;
      }
      contexts[key].Stop();
      contexts := contexts - {key};
    }

    method ProcessSmartHPA(key: Key, found: Option<Object>)
      requires Valid()
      modifies this`contexts, this`created, created
      ensures Valid() && old(created) <= created && fresh(created - old(created))
      ensures Generations() == Processed(old(Generations()), key, found)
      ensures contexts - {key} == old(contexts) - {key}
    {
      if found.None? {
        RemoveContext(key);
        return;
      }
      if found.value.spec.hpaRef.None? {
        return;
      }
      var needsRebuild := key !in contexts || contexts[key].generation != found.value.generation;
      if needsRebuild {
        if key in contexts {
          contexts[key].Stop();
        }
        var context := new Context.Initialize(key, found.value.generation);
        contexts := contexts[key := context];
        created := created + {context};
        context.Start();
      }
    }

    method Stop()
      requires Valid()
      modifies this`contexts, this`done, created
      ensures Valid() && created == old(created) && done
      ensures contexts == map[] && forall c :: c in created ==> !c.running
    {
      done := true;
      var pending := contexts.Keys;
      while pending != {}
        invariant pending <= contexts.Keys && done && created == old(created)
        invariant forall key :: key in contexts ==> contexts[key] in created && contexts[key].key == key
        invariant forall c :: c in created ==> (c.running <==> c.key in pending && contexts[c.key] == c)
        decreases |pending|
      {
        var key :| key in pending;
        contexts[key].Stop();
        pending := pending - {key};
      }
      contexts := map[];
    }
  }

  class Reconciler {
    var objects: map<Key, Object>
    var hpas: set<Key>
    var queue: seq<Key>
    const scheduler: Scheduler

    constructor (scheduler: Scheduler)
      requires scheduler.Valid()
      ensures this.scheduler == scheduler && objects == map[] && hpas == {} && queue == []
    {
      this.scheduler, objects, hpas, queue := scheduler, map[], {}, [];
    }

    function Current(): World
      reads this, scheduler
    {
      World(objects, hpas, queue, scheduler.Generations())
    }

    method EnsureHPAFromTemplate(key: Key, spec: Spec) returns (ok: bool)
      modifies this`hpas
      ensures ok == Ensured(old(hpas), key, spec).Ok?
      ensures hpas == if ok then Ensured(old(hpas), key, spec).value else old(hpas)
    {
      if spec.template.None? {
        return true;
      }
      var hpaNamespace, hpaName := spec.template.value.namespace, spec.template.value.name;
      if hpaNamespace == "" {
        hpaNamespace := key.namespace;
      }
      if hpaName == "" {
        hpaName := key.name + "-generated";
      }
      if Key(hpaNamespace, hpaName) in hpas {
        return true;
      }
      if hpaNamespace != key.namespace {
        return false;
      }
      hpas := hpas + {Key(hpaNamespace, hpaName)};
      return true;
    }

    method EnqueueForScheduling(key: Key, spec: Spec) returns (ok: bool)
      modifies this`queue
      ensures Current() == Enqueued(old(Current()), key, spec)
      ensures !ok <==> WantsScheduling(spec) && |old(queue)| >= QUEUE_SIZE
    {
      if spec.triggers == 0 {
        return true;
      }
      if spec.hpaRef.None? || spec.hpaRef.value.name == "" {
        return true;
      }
      if |queue| < QUEUE_SIZE {
        queue := queue + [key];
        return true;
      }
      return false;
    }

    method HandleDeletion(key: Key)
      requires scheduler.Valid() && key in objects
      modifies this`objects, scheduler`contexts, scheduler.created
      ensures scheduler.Valid() && scheduler.created == old(scheduler.created)
      ensures Current() == DeletionHandled(old(Current()), key)
    {
      if !objects[key].finalizer {
        return;
      }
      scheduler.RemoveContext(key);
      objects := objects - {key};
    }

    method Reconcile(key: Key)
      requires scheduler.Valid()
      modifies this, scheduler`contexts, scheduler.created
      ensures scheduler.Valid() && scheduler.created == old(scheduler.created)
      ensures Current() == Reconciled(old(Current()), key)
    {
      if key !in objects {
        return;
      }
      if objects[key].deleting {
        HandleDeletion(key);
        return;
      }
      if !objects[key].finalizer {
        objects := objects[key := objects[key].(finalizer := true)];
      }
      assert objects == old(objects)[key := old(objects)[key].(finalizer := true)];
      var spec := objects[key].spec;
      if spec.template.Some? {
        var ensured := EnsureHPAFromTemplate(key, spec);
        if !ensured {
          return;
        }
      }
      if !ReferenceValid(hpas, key, spec) {
        return;
      }
      var _ := EnqueueForScheduling(key, spec);
    }

    method ProcessItem()
      requires scheduler.Valid() && queue != []
      modifies this`queue, scheduler`contexts, scheduler`created, scheduler.created
      ensures scheduler.Valid() && fresh(scheduler.created - old(scheduler.created))
      ensures Current() == Worked(old(Current()))
    {
      var item := queue[0];
      queue := queue[1..];
      scheduler.ProcessSmartHPA(item, if item in objects then Some(objects[item]) else None);
    }

    /** The keys to reconcile when an HPA changes: every object that refers to it, once each. */
    method FindSmartHPAsForHPA(hpa: Key) returns (requests: seq<Key>)
      ensures forall key :: key in requests <==>
                key in objects && objects[key].spec.hpaRef.Some? &&
                    ReferenceKey(key, objects[key].spec.hpaRef.value) == hpa
      ensures forall i, j :: 0 <= i < j < |requests| ==> requests[i] != requests[j]
    {
      requests := [];
      var pending := objects.Keys;
      while pending != {}
        invariant pending <= objects.Keys
        invariant forall key :: key in requests <==>
                    && key in objects && key !in pending
                    && objects[key].spec.hpaRef.Some? && ReferenceKey(key, objects[key].spec.hpaRef.value) == hpa
        invariant forall i, j :: 0 <= i < j < |requests| ==> requests[i] != requests[j]
        decreases |pending|
      {
        var key :| key in pending;
        pending := pending - {key};
        if objects[key].spec.hpaRef.Some? {
          var reference := objects[key].spec.hpaRef.value;
          var refNamespace := if reference.namespace == "" then key.namespace else reference.namespace;
          if refNamespace == hpa.namespace && reference.name == hpa.name {
            requests := requests + [key];
          }
        }
      }
    }
  }
}

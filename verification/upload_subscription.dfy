/**
 * The subscription the upload field's effect opens
 * (`src/pages/AidTest/components/ImageUpload.tsx`): settled file-list events
 * are fed to it in order, and a rejected save closes it.
 */
module UploadSubscription {
  import opened Wrappers
  import opened AidTestDb
  import opened Browser
  import opened ImageUpload

  /**
   * The live subscription: the record store, whether rxjs has closed it, and
   * every id list handed to `onChange` so far. A rejected save reaches the
   * subscriber's `error` callback, which ends the subscription.
   */
  datatype Subscription = Subscription(store: Store, closed: bool, emitted: seq<seq<string>>)

  /** A file-list event that survived the debounce, with the clock its save reads. */
  datatype Settled = Settled(fileList: Option<seq<UploadFile>>, clock: nat -> nat)

  /** At subscription time nothing has been emitted. */
  function Subscribe(s: Store): Subscription {
    Subscription(s, false, [])
  }

  /**
   * What the subscriber does with the outcome of one settled event: emit the
   * ids, close on a rejected save, or nothing; a closed subscription ignores it.
   */
  function OnSettled(sub: Subscription, step: PipelineStep): (r: Subscription)
    ensures sub.closed ==> r == sub
    ensures !sub.closed ==> (r.closed <==> step.SaveFailed?)
    ensures !sub.closed && step.Emitted? ==> r.store == step.store && r.emitted == sub.emitted + [step.imageIds]
    ensures !step.Emitted? ==> r.store == sub.store && r.emitted == sub.emitted
  {
    if sub.closed then sub
    else match step
      case Dropped => sub
      case Emitted(store, imageIds) => Subscription(store, false, sub.emitted + [imageIds])
      case SaveFailed(_) => sub.(closed := true)
  }

  /** One settled event run through the pipeline against the subscription's store. */
  function Receive(sub: Subscription, e: Settled): Subscription {
    OnSettled(sub, UploadPipeline(sub.store, e.fileList, e.clock))
  }

  /** The settled events in order. */
  function Deliver(sub: Subscription, events: seq<Settled>): (r: Subscription)
    decreases |events|
  {
    if events == [] then sub else Deliver(Receive(sub, events[0]), events[1..])
  }

  /**
   * Emissions only accumulate, and once a save has been rejected the
   * subscription stays closed: no later event is saved or emitted.
   */
  lemma {:induction false} DeliverAppendsUntilClosed(sub: Subscription, events: seq<Settled>)
    ensures sub.emitted <= Deliver(sub, events).emitted
    ensures sub.closed ==> Deliver(sub, events) == sub
    ensures sub.closed ==> Deliver(sub, events).closed
    decreases |events|
  {
    if events != [] {
      DeliverAppendsUntilClosed(Receive(sub, events[0]), events[1..]);
    }
  }

  /** A rejected save ends the uploads: whatever follows, the store and the emitted ids stay as they were. */
  lemma RejectionEndsUploads(sub: Subscription, e: Settled, later: seq<Settled>)
    requires !sub.closed && UploadPipeline(sub.store, e.fileList, e.clock).SaveFailed?
    ensures Deliver(sub, [e] + later) == sub.(closed := true)
  {
    assert ([e] + later)[0] == e && ([e] + later)[1..] == later;
    DeliverAppendsUntilClosed(sub.(closed := true), later);
  }
}

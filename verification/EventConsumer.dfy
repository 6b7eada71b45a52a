/** The event subscriber: the consumers of the registered subjects that are not queues. */
module EventConsumer {
  import opened Subjects

  class EventSubscriber {
    const appSlug: string
    var subs: seq<Consumer>

    constructor (appSlug: string)
      ensures this.appSlug == appSlug && subs == []
    {
      this.appSlug := appSlug;
      subs := [];
    }

    /** Subscribes the subjects that are not queues; the first subscription that fails stops it. */
    method Start(subjects: seq<string>, fails: string -> bool) returns (err: bool, ghost n: nat)
      modifies this
      ensures n <= |subjects| && subs == old(subs) + EventConsumers(appSlug, subjects[..n])
      ensures forall k | 0 <= k < n :: !IsQueue(subjects[k]) ==> !fails(subjects[k])
      ensures err <==> n < |subjects|
      ensures err ==> !IsQueue(subjects[n]) && fails(subjects[n])
    {
      err, n := false, |subjects|;
      for i := 0 to |subjects|
        invariant subs == old(subs) + EventConsumers(appSlug, subjects[..i])
        invariant !err && n == |subjects|
        invariant forall k | 0 <= k < i :: !IsQueue(subjects[k]) ==> !fails(subjects[k])
      {
        var subject := subjects[i];
        assert subjects[..i + 1][..i] == subjects[..i];
        if !IsQueue(subject) {
          if fails(subject) {
            return true, i;
          }
          subs := subs + [Consumer(subject, subject, DurableNameFor(appSlug, subject))];
        }
      }
      assert subjects[..|subjects|] == subjects;
    }
  }
}

/**
 The controller's store of one run: a snapshot under an expected-revision check,
 the agent launches it has seen confirmed, and the writer leases of its stories.
 */
module ControllerRepository {
  import opened Wrappers
  import opened ControllerState

  /** Whether a lease has an expiry is modelled; when it expires is not. */
  datatype WriterLease = WriterLease(owner: Option<string>, expires: bool)

  type Leases = map<string, WriterLease>

  predicate Holds(leases: Leases, storyId: string, agentId: string) {
    storyId in leases && leases[storyId].owner == Some(agentId) && leases[storyId].expires
  }

  predicate Unowned(leases: Leases, storyId: string) {
    storyId in leases ==> leases[storyId].owner.None?
  }

  class Repository {
    var snapshot: Option<Snapshot>
    var confirmed: set<string>
    var leases: Leases

    constructor (initial: Option<Snapshot>)
      ensures snapshot == initial && confirmed == {} && leases == map[]
    {
      snapshot := initial;
      confirmed := {};
      leases := map[];
    }

    /** Commit iff the expected revision is current, and then advance it. */
    method CommitSnapshot(expectedRevision: nat, next: Snapshot) returns (accepted: bool)
      requires snapshot.Some?
      modifies this`snapshot
      ensures accepted == (old(snapshot).value.revision == expectedRevision)
      ensures snapshot == if accepted then Some(next.(revision := expectedRevision + 1)) else old(snapshot)
    {
      accepted := snapshot.value.revision == expectedRevision;
      if accepted {
        snapshot := Some(next.(revision := expectedRevision + 1));
      }
    }

    method ReleaseWriterLease(storyId: string)
      modifies this`leases
      ensures leases == old(leases)[storyId := WriterLease(None, false)]
    {
      leases := leases[storyId := WriterLease(None, false)];
    }
  }
}

// The attention memory object (plugin.js, cmux-attention-sync.js), whose maps every emission
// updates in place.
module AttentionMemory {
  import opened Options
  import A = Attention

  class AttentionMemory {
    var lastEventKeys: map<A.Workspace, map<A.Kind, A.Key>>
    var lastEmittedAt: map<A.Slot, A.Time>

    ghost function Contents(): A.Memory
      reads this
    {
      A.Memory(lastEventKeys, lastEmittedAt)
    }

    constructor ()
      ensures Contents() == A.NOTHING_EMITTED
    {
      lastEventKeys, lastEmittedAt := map[], map[];
    }

    // getLastEvent
    method GetLastEvent(workspace: A.Workspace, kind: A.Kind) returns (last: Option<A.LastEvent>)
      ensures last == A.Recall(Contents(), workspace, kind)
    {
      if workspace !in lastEventKeys || kind !in lastEventKeys[workspace] {
        return None;
      }
      var slot := A.SlotOf(workspace, kind);
      var at := if slot in lastEmittedAt then lastEmittedAt[slot] else 0;
      return Some(A.LastEvent(lastEventKeys[workspace][kind], at));
    }

    // rememberEvent
    method RememberEvent(event: A.Event, now: A.Time)
      modifies this
      ensures Contents() == A.Remember(old(Contents()), event, now)
    {
      if event.workspace !in lastEventKeys {
        lastEventKeys := lastEventKeys[event.workspace := map[]];
      }
      var kinds := lastEventKeys[event.workspace][event.kind := A.KeyOf(event)];
      lastEventKeys := lastEventKeys[event.workspace := kinds];
      lastEmittedAt := lastEmittedAt[A.SlotOf(event.workspace, event.kind) := now];
    }

    // syncCmuxAttention, once there is a candidate event: what it writes to the log and
    // whether it notifies.
    method Sync(event: A.Event, now: A.Time) returns (decision: A.Decision, logged: bool, notified: bool)
      modifies this
      ensures decision == A.DecisionOf(old(Contents()), event, now)
      ensures logged == (A.Emits(decision) && A.Logs(event.kind))
      ensures notified == (A.Emits(decision) && A.Notifies(event.kind))
      ensures Contents() == A.Synced(old(Contents()), event, now)
    {
      hide A.Recall, A.Remember, A.Notifies, A.Logs, A.KeyOf;
      var last := GetLastEvent(event.workspace, event.kind);
      decision := A.Decide(last, event, now);
      if !A.Emits(decision) {
        return decision, false, false;
      }
      logged, notified := A.Logs(event.kind), A.Notifies(event.kind);
      RememberEvent(event, now);
    }
  }
}

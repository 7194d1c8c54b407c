/** The achievement unlocker of client/src/hooks/use-achievements.tsx: a
    fixed table of five achievements, a map of the ones unlocked so far,
    and a notification slot that shows the latest newly unlocked one until
    its timeout clears it. */
module Achievements {
  import opened Common

  datatype Achievement = Achievement(id: string, name: string)

  /** The fixed achievement table, keyed by id. */
  const Table: map<string, Achievement> := map[
    "boot_complete" := Achievement("boot_complete", "System Initialized: Welcome Aboard"),
    "explorer1" := Achievement("explorer1", "Explorer I: First Scroll"),
    "explorer2" := Achievement("explorer2", "Explorer II: Halfway There"),
    "master" := Achievement("master", "Scroll Master: Complete Journey"),
    "konami" := Achievement("konami", "Secret Agent: Konami Master")
  ]

  /** The hook's state: `unlockedAchievements` and `currentAchievement`
      (`None` is `null`). */
  datatype Progress = Progress(unlocked: map<string, bool>, current: Option<Achievement>)

  const Initial := Progress(map[], None)

  /** `unlockedAchievements[id]` is truthy. */
  predicate IsUnlocked(unlocked: map<string, bool>, id: string)
  {
    id in unlocked && unlocked[id]
  }

  /** The ids whose entry in the unlocked map is true. */
  function UnlockedIds(p: Progress): set<string>
  {
    set id | id in p.unlocked && p.unlocked[id]
  }

  /** `triggerAchievement(id)`: a known id that is not yet unlocked is
      marked unlocked and becomes the current notification; anything else
      changes nothing. So the unlocked set only grows, only `id` can join
      the map, and a change always shows that id's table entry. */
  function Trigger(p: Progress, id: string): (r: Progress)
    ensures UnlockedIds(p) <= UnlockedIds(r)
    ensures r.unlocked.Keys <= p.unlocked.Keys + {id}
    ensures r != p ==> id in Table && r.current == Some(Table[id])
  {
    if id in Table && !IsUnlocked(p.unlocked, id) then
      Progress(p.unlocked[id := true], Some(Table[id]))
    else
      p
  }

  /** The notification timeout: the notification is cleared, the unlocked
      map is kept. */
  function ClearNotification(p: Progress): (r: Progress)
    ensures r.unlocked == p.unlocked && r.current == None
  {
    p.(current := None)
  }

  /** The state after triggering the ids in order, from the initial state. */
  function Replay(ids: seq<string>): Progress
  {
    if ids == [] then Initial else Trigger(Replay(ids[..|ids| - 1]), ids[|ids| - 1])
  }

  /** Every table entry carries its own key as its id. */
  lemma TableIdsAgree(id: string)
    requires id in Table
    ensures Table[id].id == id
  {
  }

  /** One trigger adds the id to the unlocked set exactly when it is a
      table id, keeps every other entry of the map, and shows the table
      entry for the id exactly when the id was newly unlocked. */
  lemma TriggerEffect(p: Progress, id: string)
    ensures UnlockedIds(Trigger(p, id)) == UnlockedIds(p) + (if id in Table then {id} else {})
    ensures forall k :: k != id ==>
      (k in Trigger(p, id).unlocked <==> k in p.unlocked) &&
      (k in p.unlocked ==> Trigger(p, id).unlocked[k] == p.unlocked[k])
    ensures id !in Table ==> Trigger(p, id) == p
    ensures Trigger(p, id).current ==
      (if id in Table && id !in UnlockedIds(p) then Some(Table[id]) else p.current)
  {
    var r := Trigger(p, id);
    if id in Table && !IsUnlocked(p.unlocked, id) {
      assert UnlockedIds(r) == UnlockedIds(p) + {id};
    }
  }

  /** Triggering is once-only: a second trigger of the same id changes
      neither the map nor the notification. */
  lemma TriggerIdempotent(p: Progress, id: string)
    ensures Trigger(Trigger(p, id), id) == Trigger(p, id)
  {
  }

  /** After any sequence of triggers, exactly the table ids among them are
      unlocked, only table ids appear in the map, and the notification, if
      any, is a table entry. */
  lemma {:induction false} ReplayUnlocksKnownIds(ids: seq<string>)
    ensures UnlockedIds(Replay(ids)) == (set id | id in ids && id in Table)
    ensures Replay(ids).unlocked.Keys <= Table.Keys
    ensures Replay(ids).current.Some? ==> Replay(ids).current.value in Table.Values
  {
    if ids != [] {
      var init, id := ids[..|ids| - 1], ids[|ids| - 1];
      assert ids == init + [id];
      ReplayUnlocksKnownIds(init);
      TriggerEffect(Replay(init), id);
      assert (set x | x in ids && x in Table) ==
             (set x | x in init && x in Table) + (if id in Table then {id} else {});
    }
  }

  /** The set of unlocked ids only grows as more ids are triggered. */
  lemma {:induction false} ReplayMonotone(ids: seq<string>, more: seq<string>)
    ensures UnlockedIds(Replay(ids)) <= UnlockedIds(Replay(ids + more))
  {
    ReplayUnlocksKnownIds(ids);
    ReplayUnlocksKnownIds(ids + more);
  }

  /** The hook's state as fields; `pendingClears` counts the notification
      timeouts scheduled and not yet fired. */
  class AchievementTracker {
    var unlocked: map<string, bool>
    var current: Option<Achievement>
    var pendingClears: nat

    function State(): Progress
      reads this
    {
      Progress(unlocked, current)
    }

    constructor ()
      ensures State() == Initial && pendingClears == 0
    {
      unlocked, current, pendingClears := map[], None, 0;
    }

    /** `triggerAchievement(id)`; a new unlock also schedules a timeout. */
    method TriggerAchievement(id: string)
      modifies this
      ensures State() == Trigger(old(State()), id)
      ensures pendingClears == old(pendingClears) + (if State() == old(State()) then 0 else 1)
    {
      if id in Table && !IsUnlocked(unlocked, id) {
        assert unlocked[id := true] != unlocked;
        unlocked := unlocked[id := true];
        current := Some(Table[id]);
        pendingClears := pendingClears + 1;
      }
    }

    /** A scheduled notification timeout fires. */
    method NotificationTimeout()
      requires pendingClears > 0
      modifies this
      ensures State() == ClearNotification(old(State()))
      ensures pendingClears == old(pendingClears) - 1
    {
      current := None;
      pendingClears := pendingClears - 1;
    }
  }
}

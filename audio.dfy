/** The sound-effect system of client/src/hooks/use-audio.tsx: an
    enabled flag restored from and saved to browser storage (as the
    strings "true" / "false"), a loaded flag, one audio element per sound
    effect, and a `playSound` guarded by both flags. */
module Audio {
  import opened Common

  datatype SoundEffect =
    | BootComplete | ButtonClick | Hover | AchievementSound | ModalOpen
    | ModalClose | ToggleOn | ToggleOff | ErrorSound | SuccessSound

  /** The effects in the order of the `soundEffects` record. */
  const AllEffects: seq<SoundEffect> :=
    [BootComplete, ButtonClick, Hover, AchievementSound, ModalOpen,
     ModalClose, ToggleOn, ToggleOff, ErrorSound, SuccessSound]

  /** The saved `audioEnabled` entry enables audio only when it is exactly
      the string "true"; an absent entry (`null`) disables it. */
  function EnabledFromSaved(saved: Option<string>): bool
  {
    saved == Some("true")
  }

  /** `Boolean.prototype.toString`: "true" exactly for true. */
  function BoolString(b: bool): (r: string)
    ensures r == "true" <==> b
  {
    if b then "true" else "false"
  }

  /** Every effect is in the record, once. */
  lemma AllEffectsComplete(e: SoundEffect)
    ensures e in AllEffects
  {
  }

  /** The saved form of a state restores that state, and no saved string
      other than "true" enables audio. */
  lemma SavedRoundTrip(b: bool, s: string)
    ensures EnabledFromSaved(Some(BoolString(b))) == b
    ensures EnabledFromSaved(Some(s)) <==> s == "true"
    ensures !EnabledFromSaved(None)
  {
  }

  class AudioSystem {
    /** `isEnabledRef.current` and the `isEnabled` UI state. */
    var enabledRef: bool
    var enabled: bool
    /** `isLoadedRef.current`. */
    var loaded: bool
    /** The browser-storage entry `audioEnabled`. */
    var saved: Option<string>
    /** `audioElements.current`: the effects that have an element; the
        value says whether the element still has its source (cleanup
        clears it). */
    var elements: map<SoundEffect, bool>
    /** The effects whose element `play()` was called on, in order. */
    var plays: seq<SoundEffect>

    ghost predicate Valid()
      reads this
    {
      enabledRef == enabled
    }

    /** The hook's first render, with the storage entry as it is. */
    constructor (saved: Option<string>)
      ensures Valid() && this.saved == saved
      ensures !enabledRef && !loaded && elements == map[] && plays == []
    {
      this.saved := saved;
      enabledRef, enabled, loaded := false, false, false;
      elements, plays := map[], [];
    }

    /** The mount effect. `broken` are the effects whose `new Audio(...)`
        throws; they get no new element. */
    method Initialize(broken: set<SoundEffect>)
      requires Valid()
      modifies this
      ensures Valid()
      ensures old(loaded) ==> enabledRef == old(enabledRef) && elements == old(elements)
      ensures !old(loaded) ==> enabledRef == EnabledFromSaved(saved)
      ensures !old(loaded) ==> forall e :: e !in broken ==> e in elements && elements[e]
      ensures !old(loaded) ==> forall e :: e in broken ==>
        (e in elements <==> e in old(elements)) && (e in elements ==> elements[e] == old(elements)[e])
      ensures loaded && saved == old(saved) && plays == old(plays)
    {
      if loaded {
        return;
      }
      enabledRef := EnabledFromSaved(saved);
      enabled := enabledRef;
      var i := 0;
      while i < |AllEffects|
        modifies this`elements
        invariant 0 <= i <= |AllEffects|
        invariant forall e :: e !in broken && e in AllEffects[..i] ==> e in elements && elements[e]
        invariant forall e :: (e in broken || e !in AllEffects[..i]) ==>
          (e in elements <==> e in old(elements)) && (e in elements ==> elements[e] == old(elements)[e])
      {
        var e := AllEffects[i];
        if e !in broken {
          elements := elements[e := true];
        }
        assert AllEffects[..i + 1] == AllEffects[..i] + [e];
        i := i + 1;
      }
      forall e | e !in broken ensures e in elements && elements[e] {
        AllEffectsComplete(e);
        assert AllEffects[..i] == AllEffects;
      }
      loaded := true;
    }

    /** The mount effect's cleanup: every element is paused and loses its
        source, and the system counts as not loaded. */
    method Cleanup()
      requires Valid()
      modifies this
      ensures Valid()
      ensures elements.Keys == old(elements).Keys && forall e :: e in elements ==> !elements[e]
      ensures !loaded
      ensures enabledRef == old(enabledRef) && saved == old(saved) && plays == old(plays)
    {
      var i := 0;
      while i < |AllEffects|
        modifies this`elements
        invariant 0 <= i <= |AllEffects|
        invariant elements.Keys == old(elements).Keys
        invariant forall e :: e in elements && e in AllEffects[..i] ==> !elements[e]
      {
        var e := AllEffects[i];
        if e in elements {
          elements := elements[e := false];
        }
        assert AllEffects[..i + 1] == AllEffects[..i] + [e];
        i := i + 1;
      }
      assert AllEffects[..i] == AllEffects;
      forall e | e in elements ensures !elements[e] {
        AllEffectsComplete(e);
      }
      loaded := false;
    }

    /** `toggleAudio`: flip, save, and play the toggle-on sound when
        switching on while loaded. */
    method ToggleAudio()
      requires Valid()
      modifies this
      ensures Valid()
      ensures enabledRef == !old(enabledRef)
      ensures saved == Some(BoolString(enabledRef))
      ensures plays == old(plays) + (if enabledRef && loaded && ToggleOn in elements then [ToggleOn] else [])
      ensures loaded == old(loaded) && elements == old(elements)
    {
      var newState := !enabledRef;
      enabledRef := newState;
      enabled := newState;
      saved := Some(BoolString(newState));
      if newState && loaded && ToggleOn in elements {
        plays := plays + [ToggleOn];
      }
    }

    /** `playSound(effect)`: nothing unless enabled and loaded. */
    method PlaySound(effect: SoundEffect)
      requires Valid()
      modifies this`plays
      ensures plays == old(plays) + (if enabledRef && loaded && effect in elements then [effect] else [])
    {
      if !enabledRef || !loaded {
        return;
      }
      if effect in elements {
        plays := plays + [effect];
      }
    }
  }
}

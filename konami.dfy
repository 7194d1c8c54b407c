/** The Konami-code listener of client/src/hooks/use-konami.tsx: a window
    key handler that advances a progress index while the keys follow the
    ten-key code, resets it on any other key, and raises the easter-egg
    flag when the last key arrives. */
module Konami {

  /** A `KeyboardEvent.key` value. */
  type Key = string

  /** The code that unlocks the easter egg, in the order it is typed. */
  const Code: seq<Key> := ["ArrowUp", "ArrowUp", "ArrowDown", "ArrowDown",
                           "ArrowLeft", "ArrowRight", "ArrowLeft", "ArrowRight",
                           "b", "a"]

  /** The progress index after key `k` arrives at progress `i`: one further
      on an exact (case-sensitive) match, back to 0 on completion or on
      any other key. */
  function NextIndex(i: nat, k: Key): (r: nat)
    requires i < |Code|
    ensures r < |Code|
  {
    if k == Code[i] then (if i + 1 == |Code| then 0 else i + 1) else 0
  }

  /** Whether key `k` at progress `i` completes the code; completing
      resets the index. */
  predicate Completes(i: nat, k: Key)
    requires i < |Code|
    ensures Completes(i, k) ==> NextIndex(i, k) == 0
  {
    k == Code[i] && i + 1 == |Code|
  }

  /** The progress index after the keys, from the hook's initial index 0. */
  function Run(keys: seq<Key>): (r: nat)
    ensures r < |Code|
  {
    if keys == [] then 0 else NextIndex(Run(keys[..|keys| - 1]), keys[|keys| - 1])
  }

  /** Whether some key of `keys` completed the code. */
  predicate UnlockedBy(keys: seq<Key>)
  {
    keys != [] &&
    (UnlockedBy(keys[..|keys| - 1]) || Completes(Run(keys[..|keys| - 1]), keys[|keys| - 1]))
  }

  /** The code occurs in `keys`, ending just before position `j`. */
  predicate CodeEndsAt(keys: seq<Key>, j: int)
  {
    |Code| <= j <= |keys| && keys[j - |Code|..j] == Code
  }

  /** A key advances the index exactly when it is the expected key
      (compared exactly, so "B" is not "b"); any other key resets it to 0. */
  lemma NextIndexCases(i: nat, k: Key)
    requires i < |Code|
    ensures i + 1 < |Code| ==> (NextIndex(i, k) == i + 1 <==> k == Code[i])
    ensures k != Code[i] ==> NextIndex(i, k) == 0
    ensures Completes(i, k) <==> i == 9 && k == "a"
  {
  }

  /** The index always counts the keys just typed that spell the start of
      the code: the last `Run(keys)` keys equal the first `Run(keys)` keys
      of the code. */
  lemma {:induction false} RunMatchesSuffix(keys: seq<Key>)
    ensures Run(keys) <= |keys|
    ensures keys[|keys| - Run(keys)..] == Code[..Run(keys)]
  {
    if keys != [] {
      var init, k := keys[..|keys| - 1], keys[|keys| - 1];
      assert keys == init + [k];
      RunMatchesSuffix(init);
      var i := Run(init);
      if k == Code[i] && i + 1 < |Code| {
        assert Run(keys) == i + 1;
        assert keys[|keys| - (i + 1)..] == init[|init| - i..] + [k];
        assert Code[..i + 1] == Code[..i] + [Code[i]];
      }
    }
  }

  /** If the last `|c| - 1` keys spell all of `c` but its last element,
      and `k` is that element, then the keys followed by `k` end with `c`. */
  lemma AppendCompletes(keys: seq<Key>, k: Key, c: seq<Key>)
    requires 0 < |c| <= |keys| + 1
    requires keys[|keys| - (|c| - 1)..] == c[..|c| - 1] && k == c[|c| - 1]
    ensures (keys + [k])[|keys| + 1 - |c|..|keys| + 1] == c
  {
    var ks := keys + [k];
    assert ks[|keys| + 1 - |c|..|keys| + 1] == keys[|keys| - (|c| - 1)..] + [k];
    assert c == c[..|c| - 1] + [c[|c| - 1]];
  }

  /** Keys ending with all of the code but its last key, followed by that
      last key, end with the code. */
  lemma EndsWithCode(keys: seq<Key>, k: Key)
    requires |keys| >= |Code| - 1 && keys[|keys| - (|Code| - 1)..] == Code[..|Code| - 1]
    requires k == Code[|Code| - 1]
    ensures CodeEndsAt(keys + [k], |keys| + 1)
  {
    AppendCompletes(keys, k, Code);
  }

  /** A key completes the code only if it and the nine keys before it
      are exactly the code. */
  lemma CompletionNeedsWholeCode(keys: seq<Key>, k: Key)
    requires Completes(Run(keys), k)
    ensures CodeEndsAt(keys + [k], |keys| + 1)
  {
    RunMatchesSuffix(keys);
    assert Run(keys) == |Code| - 1 && k == Code[|Code| - 1];
    EndsWithCode(keys, k);
  }

  /** Whenever the easter egg was unlocked, the whole code was typed
      somewhere in the key history. */
  lemma {:induction false} UnlockedMeansCodeTyped(keys: seq<Key>)
    requires UnlockedBy(keys)
    ensures exists j :: CodeEndsAt(keys, j)
  {
    var init, k := keys[..|keys| - 1], keys[|keys| - 1];
    assert keys == init + [k];
    if UnlockedBy(init) {
      UnlockedMeansCodeTyped(init);
      var j :| CodeEndsAt(init, j);
      assert keys[j - |Code|..j] == init[j - |Code|..j];
      assert CodeEndsAt(keys, j);
    } else {
      CompletionNeedsWholeCode(init, k);
    }
  }

  /** From index 0, the first `j` keys of the code bring the index to `j`. */
  lemma {:induction false} CodePrefixAdvances(keys: seq<Key>, j: nat)
    requires Run(keys) == 0 && j < |Code|
    ensures Run(keys + Code[..j]) == j
  {
    if j == 0 {
      assert keys + Code[..0] == keys;
    } else {
      CodePrefixAdvances(keys, j - 1);
      var ks := keys + Code[..j];
      assert ks[..|ks| - 1] == keys + Code[..j - 1];
      assert ks[|ks| - 1] == Code[j - 1];
    }
  }

  /** Typing the whole code while the index is 0 (in particular on a fresh
      page) unlocks the easter egg and leaves the index at 0. */
  lemma CodeUnlocksFromZero(keys: seq<Key>)
    requires Run(keys) == 0
    ensures UnlockedBy(keys + Code) && Run(keys + Code) == 0
  {
    CodePrefixAdvances(keys, 9);
    var ks := keys + Code;
    assert ks[..|ks| - 1] == keys + Code[..9];
    assert ks[|ks| - 1] == "a";
  }

  /** A stray ArrowUp does not restart the code: with one extra ArrowUp in
      front, the third key resets the index to 0 instead of 1, and the
      code that follows never unlocks. */
  lemma ExtraLeadingUpDoesNotUnlock()
    ensures Run(["ArrowUp"] + Code) == 0
    ensures !UnlockedBy(["ArrowUp"] + Code)
  {
    var ks := ["ArrowUp"] + Code;
    assert ks[..1][..0] == [];
    assert Run(ks[..1]) == 1 && !UnlockedBy(ks[..1]);
    assert ks[..2][..1] == ks[..1];
    assert Run(ks[..2]) == 2 && !UnlockedBy(ks[..2]);
    assert ks[..2] == ks[..3][..2];
    assert Run(ks[..3]) == 0 && !UnlockedBy(ks[..3]);
    NoUpStaysAtZero(ks[..3], ks[3..]);
    assert ks == ks[..3] + ks[3..];
  }

  /** From index 0, keys that contain no ArrowUp keep the index at 0 and
      never unlock. */
  lemma {:induction false} NoUpStaysAtZero(keys: seq<Key>, rest: seq<Key>)
    requires Run(keys) == 0 && !UnlockedBy(keys)
    requires forall n :: 0 <= n < |rest| ==> rest[n] != "ArrowUp"
    ensures Run(keys + rest) == 0 && !UnlockedBy(keys + rest)
    decreases |rest|
  {
    if rest != [] {
      var ks := keys + rest;
      var front := keys + rest[..|rest| - 1];
      NoUpStaysAtZero(keys, rest[..|rest| - 1]);
      assert ks[..|ks| - 1] == front;
      assert ks[|ks| - 1] == rest[|rest| - 1];
    } else {
      assert keys + rest == keys;
    }
  }

  /** The listener's state. `history` is the sequence of keys received
      since mount; it is for specification only. */
  class KonamiListener {
    var index: nat
    var unlocked: bool
    ghost var history: seq<Key>

    ghost predicate Valid()
      reads this
    {
      index == Run(history) && (unlocked ==> UnlockedBy(history))
    }

    constructor ()
      ensures Valid() && index == 0 && !unlocked && history == []
    {
      index, unlocked, history := 0, false, [];
    }

    /** The `keydown` handler. */
    method OnKey(k: Key)
      requires Valid()
      modifies this
      ensures Valid()
      ensures history == old(history) + [k]
      ensures index == NextIndex(old(index), k)
      ensures unlocked == (old(unlocked) || Completes(old(index), k))
    {
      if k == Code[index] {
        var next := index + 1;
        index := next;
        if next == |Code| {
          unlocked := true;
          index := 0;
        }
      } else {
        index := 0;
      }
      history := history + [k];
      assert history[..|history| - 1] == old(history);
    }

    /** The "Awesome, Got it!" button: hides the easter egg again. */
    method Dismiss()
      requires Valid()
      modifies this`unlocked
      ensures Valid() && !unlocked
    {
      unlocked := false;
    }
  }
}

/**
 * The administration screen for system log entries: a shortened message,
 * a details flag, and no way to add or edit an entry, so deletion is the
 * only change an administrator can make.
 */
module ApodAdmin {
  import opened Common
  import opened ApodModels

  const PreviewLength := 100

  /** `message_preview`: the message, or its first 100 characters followed by "...". */
  function MessagePreview(l: SystemLog): (r: string)
    ensures |l.message| <= PreviewLength ==> r == l.message
    ensures |l.message| > PreviewLength ==> |r| == PreviewLength + 3 && r[..PreviewLength] == l.message[..PreviewLength]
                                            && r[PreviewLength..] == "..."
  {
    if |l.message| > PreviewLength then l.message[..PreviewLength] + "..." else l.message
  }

  /** A preview is never longer than 103 characters, and it starts like the message. */
  lemma PreviewBounded(l: SystemLog)
    ensures |MessagePreview(l)| <= PreviewLength + 3
    ensures var n := if |l.message| < PreviewLength then |l.message| else PreviewLength;
      MessagePreview(l)[..n] == l.message[..n]
  {
  }

  /** `has_details`: Python truthiness of the JSON column; neither null nor an empty object counts. */
  function HasDetails(l: SystemLog): (r: bool)
    ensures r <==> l.details.Some? && l.details.value != map[]
  {
    l.details.Some? && |l.details.value| > 0
  }

  function HasAddPermission(): (r: bool)
    ensures !r
  {
    false
  }

  function HasChangePermission(): (r: bool)
    ensures !r
  {
    false
  }

  /** The positions of `selected` relative to the entry after the first. */
  function ShiftDown(selected: set<nat>): set<nat> {
    set i | i in selected && i > 0 :: i - 1
  }

  /** The only action the screen offers: `delete_selected` on the entries at the chosen positions. */
  function DeleteSelected(logs: seq<SystemLog>, selected: set<nat>): (r: seq<SystemLog>)
    decreases |logs|
  {
    if logs == [] then []
    else
      var rest := DeleteSelected(logs[1..], ShiftDown(selected));
      if 0 in selected then rest else [logs[0]] + rest
  }

  /** Deleting never adds or edits an entry: what remains was already there. */
  lemma {:induction false} AdminDeletionOnlyRemoves(logs: seq<SystemLog>, selected: set<nat>)
    ensures multiset(DeleteSelected(logs, selected)) <= multiset(logs)
    decreases |logs|
  {
    if logs != [] {
      AdminDeletionOnlyRemoves(logs[1..], ShiftDown(selected));
      assert logs == [logs[0]] + logs[1..];
    }
  }

  /** Every entry that was not selected remains. */
  lemma {:induction false} AdminDeletionKeepsUnselected(logs: seq<SystemLog>, selected: set<nat>, i: nat)
    requires i < |logs| && i !in selected
    ensures logs[i] in DeleteSelected(logs, selected)
    decreases |logs|
  {
    if i > 0 {
      assert i - 1 !in ShiftDown(selected);
      AdminDeletionKeepsUnselected(logs[1..], ShiftDown(selected), i - 1);
    }
  }

  /** Selecting nothing deletes nothing. */
  lemma {:induction false} AdminDeletionOfNothing(logs: seq<SystemLog>)
    ensures DeleteSelected(logs, {}) == logs
    decreases |logs|
  {
    if logs != [] {
      assert ShiftDown({}) == {};
      AdminDeletionOfNothing(logs[1..]);
    }
  }

  /**
   * The reference reading of `delete_selected`: the entries from position `k`
   * on whose positions were not chosen, in their original order.
   */
  function Unselected(logs: seq<SystemLog>, selected: set<nat>, k: nat): (r: seq<SystemLog>)
    requires k <= |logs|
    ensures |r| <= |logs| - k
    decreases |logs| - k
  {
    if k == |logs| then []
    else (if k in selected then [] else [logs[k]]) + Unselected(logs, selected, k + 1)
  }

  /** The chosen positions at or after `k`, counted from `k`. */
  function ShiftBy(selected: set<nat>, k: nat): set<nat> {
    set i | i in selected && i >= k :: i - k
  }

  /** The chosen positions that name an entry of `logs` at or after `k`. */
  function ChosenFrom(logs: seq<SystemLog>, selected: set<nat>, k: nat): set<nat> {
    set i | i in selected && k <= i < |logs|
  }

  lemma ShiftByStep(selected: set<nat>, k: nat)
    ensures ShiftDown(ShiftBy(selected, k)) == ShiftBy(selected, k + 1)
    ensures 0 in ShiftBy(selected, k) <==> k in selected
  {
    forall j | j in ShiftBy(selected, k + 1) ensures j in ShiftDown(ShiftBy(selected, k)) {
      assert j + 1 + k in selected;
      assert j + 1 in ShiftBy(selected, k);
    }
    if k in selected {
      assert 0 == k - k;
    }
  }

  /** Deleting the chosen entries leaves exactly the unchosen ones, in their original order. */
  lemma {:induction false} AdminDeletionKeepsUnselectedInOrder(logs: seq<SystemLog>, selected: set<nat>)
    ensures DeleteSelected(logs, selected) == Unselected(logs, selected, 0)
  {
    assert ShiftBy(selected, 0) == selected by {
      forall i | i in selected ensures i in ShiftBy(selected, 0) {
        assert i == i - 0;
      }
    }
    DeleteSelectedFrom(logs, selected, 0);
  }

  lemma {:induction false} DeleteSelectedFrom(logs: seq<SystemLog>, selected: set<nat>, k: nat)
    requires k <= |logs|
    ensures DeleteSelected(logs[k..], ShiftBy(selected, k)) == Unselected(logs, selected, k)
    decreases |logs| - k
  {
    if k < |logs| {
      ShiftByStep(selected, k);
      DeleteSelectedFrom(logs, selected, k + 1);
      assert logs[k..][1..] == logs[k + 1..];
    }
  }

  /** Exactly one entry goes per chosen position that names an entry; positions past the end are ignored. */
  lemma {:induction false} AdminDeletionCount(logs: seq<SystemLog>, selected: set<nat>)
    ensures |DeleteSelected(logs, selected)| == |logs| - |ChosenFrom(logs, selected, 0)|
  {
    AdminDeletionKeepsUnselectedInOrder(logs, selected);
    UnselectedCount(logs, selected, 0);
  }

  lemma {:induction false} UnselectedCount(logs: seq<SystemLog>, selected: set<nat>, k: nat)
    requires k <= |logs|
    ensures |Unselected(logs, selected, k)| == |logs| - k - |ChosenFrom(logs, selected, k)|
    decreases |logs| - k
  {
    if k == |logs| {
      assert ChosenFrom(logs, selected, k) == {};
    } else {
      UnselectedCount(logs, selected, k + 1);
      var later := ChosenFrom(logs, selected, k + 1);
      if k in selected {
        assert ChosenFrom(logs, selected, k) == later + {k};
      } else {
        assert ChosenFrom(logs, selected, k) == later;
      }
    }
  }
}

/**
  How a captured session replaces the decisions of a task.
  Source: experiments/cross-agent-continuity/continuity_experiment.py, `_memory_key` and the
  decision loops of `capture`.
*/
module DecisionUpsert {
  import opened Prelude
  import opened KeyedList

  datatype Decision = Decision(text: string, reason: string, source: string)

  /** A decision or change of a session; `key` is stripped and lower-cased, empty if absent. */
  datatype Item = Item(id: string, key: string, text: string, previous: string, reason: string, source: string)

  function MemoryKey(prefix: string, item: Item): string {
    if item.key != "" then item.key else prefix + "/" + item.id
  }

  function FromDecision(item: Item, sourceRef: string): Keyed<Decision> {
    var key := MemoryKey("decisions", item);
    Keyed(key, Decision(item.text, item.reason, (if item.source != "" then item.source else sourceRef) + "#" + key))
  }

  function FromChange(item: Item, sourceRef: string): Keyed<Decision> {
    var key := MemoryKey("changes", item);
    var text := if item.previous != "" then item.text + " Previous value '" + item.previous + "' is superseded and stale."
                else item.text;
    Keyed(key, Decision(text, if item.reason != "" then item.reason else "session changed current project state",
                        sourceRef + "#" + key))
  }

  /** A decision is filed under its key, or else under "decisions/" and its id, behind its own source or the session's. */
  lemma DecisionInWords(item: Item, sourceRef: string)
    ensures var entry := FromDecision(item, sourceRef);
            && entry.key == (if |item.key| > 0 then item.key else "decisions/" + item.id)
            && entry.entry.text == item.text && entry.entry.reason == item.reason
            && entry.entry.source == (if |item.source| > 0 then item.source else sourceRef) + "#" + entry.key
  {
    assert "decisions" + "/" == "decisions/";
  }

  /** A change is filed under its key, or else under "changes/" and its id, and says what it supersedes. */
  lemma ChangeInWords(item: Item, sourceRef: string)
    ensures var entry := FromChange(item, sourceRef);
            && entry.key == (if |item.key| > 0 then item.key else "changes/" + item.id)
            && (|item.previous| == 0 ==> entry.entry.text == item.text)
            && (|item.previous| > 0 ==>
                  entry.entry.text == item.text + " Previous value '" + item.previous + "' is superseded and stale.")
            && entry.entry.reason == (if |item.reason| > 0 then item.reason else "session changed current project state")
            && entry.entry.source == sourceRef + "#" + entry.key
  {
    assert "changes" + "/" == "changes/";
  }

  predicate EndsWith(s: string, suffix: string) {
    |suffix| <= |s| && s[|s| - |suffix|..] == suffix
  }

  /** The decision's source says it is filed under the key. */
  predicate Filed(d: Decision, key: string) {
    EndsWith(d.source, "#" + key)
  }

  function DecisionEntries(decisions: seq<Item>, sourceRef: string): seq<Keyed<Decision>> {
    if decisions == [] then []
    else DecisionEntries(decisions[..|decisions| - 1], sourceRef) + [FromDecision(decisions[|decisions| - 1], sourceRef)]
  }

  function ChangeEntries(changes: seq<Item>, sourceRef: string): seq<Keyed<Decision>> {
    if changes == [] then []
    else ChangeEntries(changes[..|changes| - 1], sourceRef) + [FromChange(changes[|changes| - 1], sourceRef)]
  }

  function Entries(decisions: seq<Item>, changes: seq<Item>, sourceRef: string): seq<Keyed<Decision>> {
    DecisionEntries(decisions, sourceRef) + ChangeEntries(changes, sourceRef)
  }

  lemma SuffixOfSum(a: string, b: string)
    ensures EndsWith(a + b, b)
  {
  }

  lemma DecisionFiled(item: Item, sourceRef: string)
    ensures Filed(FromDecision(item, sourceRef).entry, FromDecision(item, sourceRef).key)
  {
    var start := if item.source != "" then item.source else sourceRef;
    var key := MemoryKey("decisions", item);
    assert start + "#" + key == start + ("#" + key);
    SuffixOfSum(start, "#" + key);
  }

  lemma ChangeFiled(item: Item, sourceRef: string)
    ensures Filed(FromChange(item, sourceRef).entry, FromChange(item, sourceRef).key)
  {
    var key := MemoryKey("changes", item);
    assert sourceRef + "#" + key == sourceRef + ("#" + key);
    SuffixOfSum(sourceRef, "#" + key);
  }

  lemma {:induction false} DecisionsSelfFiled(decisions: seq<Item>, sourceRef: string)
    ensures SelfFiled(Filed, DecisionEntries(decisions, sourceRef))
  {
    if decisions != [] {
      DecisionsSelfFiled(decisions[..|decisions| - 1], sourceRef);
      DecisionFiled(decisions[|decisions| - 1], sourceRef);
    }
  }

  lemma {:induction false} ChangesSelfFiled(changes: seq<Item>, sourceRef: string)
    ensures SelfFiled(Filed, ChangeEntries(changes, sourceRef))
  {
    if changes != [] {
      ChangesSelfFiled(changes[..|changes| - 1], sourceRef);
      ChangeFiled(changes[|changes| - 1], sourceRef);
    }
  }

  /** Every entry a session makes is filed under its own key. */
  lemma EntriesSelfFiled(decisions: seq<Item>, changes: seq<Item>, sourceRef: string)
    ensures SelfFiled(Filed, Entries(decisions, changes, sourceRef))
  {
    DecisionsSelfFiled(decisions, sourceRef);
    ChangesSelfFiled(changes, sourceRef);
  }

  method DropFiled(list: seq<Decision>, key: string) returns (kept: seq<Decision>)
    ensures kept == Without(Filed, list, key)
  {
    kept := [];
    for i := 0 to |list|
      invariant kept == Without(Filed, list[..i], key)
    {
      assert list[..i + 1][..i] == list[..i];
      if !EndsWith(list[i].source, "#" + key) {
        kept := kept + [list[i]];
      }
    }
    assert list[..|list|] == list;
  }

  method UpsertOne(list: seq<Decision>, keyed: Keyed<Decision>) returns (result: seq<Decision>)
    ensures result == Without(Filed, list, keyed.key) + [keyed.entry]
  {
    var kept := DropFiled(list, keyed.key);
    result := kept + [keyed.entry];
  }

  method AddDecisions(list: seq<Decision>, decisions: seq<Item>, sourceRef: string) returns (result: seq<Decision>)
    ensures result == Upsert(Filed, list, DecisionEntries(decisions, sourceRef))
  {
    result := list;
    for i := 0 to |decisions|
      invariant result == Upsert(Filed, list, DecisionEntries(decisions[..i], sourceRef))
    {
      assert decisions[..i + 1][..i] == decisions[..i];
      result := UpsertOne(result, FromDecision(decisions[i], sourceRef));
    }
    assert decisions[..|decisions|] == decisions;
  }

  method AddChanges(list: seq<Decision>, changes: seq<Item>, sourceRef: string) returns (result: seq<Decision>)
    ensures result == Upsert(Filed, list, ChangeEntries(changes, sourceRef))
  {
    result := list;
    for i := 0 to |changes|
      invariant result == Upsert(Filed, list, ChangeEntries(changes[..i], sourceRef))
    {
      assert changes[..i + 1][..i] == changes[..i];
      result := UpsertOne(result, FromChange(changes[i], sourceRef));
    }
    assert changes[..|changes|] == changes;
  }

  /** The loops of `capture`, over the decisions and then over the changes. */
  method UpsertDecisions(list: seq<Decision>, decisions: seq<Item>, changes: seq<Item>, sourceRef: string)
    returns (result: seq<Decision>)
    ensures result == Upsert(Filed, list, Entries(decisions, changes, sourceRef))
  {
    UpsertConcat(Filed, list, DecisionEntries(decisions, sourceRef), ChangeEntries(changes, sourceRef));
    result := AddDecisions(list, decisions, sourceRef);
    result := AddChanges(result, changes, sourceRef);
  }

  predicate HashFree(key: string) {
    '#' !in key
  }

  /** For a key without '#', the last '#' of a source filed under it is the one before the key. */
  lemma LastHash(d: Decision, key: string)
    requires HashFree(key) && Filed(d, key)
    ensures var at := |d.source| - |key| - 1;
            at >= 0 && d.source[at] == '#' && d.source[at + 1..] == key
            && forall i :: at < i < |d.source| ==> d.source[i] != '#'
  {
    var at := |d.source| - |key| - 1;
    assert d.source[at..] == "#" + key;
    assert d.source[at..][0] == '#' && d.source[at..][1..] == key;
    forall i | at < i < |d.source| ensures d.source[i] != '#' {
      assert d.source[i] == d.source[at + 1..][i - at - 1];
    }
  }

  /** So the source tells the key. */
  lemma FiledUnderOneKey(d: Decision, key: string, other: string)
    requires HashFree(key) && HashFree(other) && Filed(d, key)
    ensures Filed(d, other) <==> other == key
  {
    LastHash(d, key);
    if Filed(d, other) {
      LastHash(d, other);
    }
  }

  /** For keys without '#': the old list without the touched keys, then the last entry of each key. */
  lemma HashFreeClosedForm(list: seq<Decision>, items: seq<Keyed<Decision>>)
    requires SelfFiled(Filed, items) && forall i :: 0 <= i < |items| ==> HashFree(items[i].key)
    ensures Upsert(Filed, list, items) == Survivors(Filed, list, items) + LastEntries(items, |items|)
  {
    forall i, j | 0 <= i < |items| && 0 <= j < |items|
      ensures Filed(items[i].entry, items[j].key) <==> items[i].key == items[j].key
    {
      FiledUnderOneKey(items[i].entry, items[i].key, items[j].key);
    }
    UpsertClosedForm(Filed, list, items);
  }

  lemma ShorterSuffix(d: Decision)
    requires Filed(d, "b#a")
    ensures Filed(d, "a")
  {
    var n := |d.source|;
    assert d.source[n - 2..] == d.source[n - 4..][2..] == "#a";
  }

  /** With '#' in a key the closed form fails: an item under another key takes the entry away. */
  lemma HashKeyLoses(entry: Decision, other: Decision)
    requires Filed(entry, "b#a")
    ensures Upsert(Filed, [], [Keyed("b#a", entry), Keyed("a", other)]) == [other]
    ensures LastEntries([Keyed("b#a", entry), Keyed("a", other)], 2) == [entry, other]
  {
    ShorterSuffix(entry);
    TwoKeys(Filed, "b#a", entry, "a", other);
  }
}

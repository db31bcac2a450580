/** The environment field of the launch form: its entry list and the steps that change it. */
module EnvEditor {
  import opened Options
  import opened Text
  import opened EnvText
  import opened EnvMerge

  // ---- The steps, as list updates ----

  function IndexOfKey(es: seq<Entry>, key: string): (r: int)
    ensures -1 <= r < |es|
    ensures r >= 0 ==> es[r].key == key
    ensures r < 0 <==> !Binds(es, key)
  {
    if es == [] then -1
    else if es[0].key == key then 0
    else
      var rest := IndexOfKey(es[1..], key);
      assert Binds(es, key) <==> Binds(es[1..], key) by {
        if Binds(es[1..], key) {
          var i :| 0 <= i < |es[1..]| && es[1..][i].key == key;
          assert es[i + 1].key == key;
        }
        if Binds(es, key) {
          var i :| 0 <= i < |es| && es[i].key == key;
          assert es[1..][i - 1].key == key;
        }
      }
      if rest < 0 then -1 else rest + 1
  }

  predicate BindsTrimmed(es: seq<Entry>, key: string) {
    exists i :: 0 <= i < |es| && Trim(es[i].key) == key
  }

  /** The "add" button: the typed key is trimmed, but compared with the stored keys as they stand. */
  function Add(es: seq<Entry>, typed: string, value: string): seq<Entry> {
    var key := Trim(typed);
    if key == "" then es
    else
      var i := IndexOfKey(es, key);
      if i >= 0 then es[i := Entry(key, value)] else es + [Entry(key, value)]
  }

  /** Choosing a suggestion: trimmed keys are compared on both sides. */
  function Suggest(es: seq<Entry>, suggestion: Entry): seq<Entry> {
    var key := Trim(suggestion.key);
    if key == "" || BindsTrimmed(es, key) then es else es + [Entry(key, suggestion.value)]
  }

  function Remove(es: seq<Entry>, index: nat): seq<Entry> {
    if index < |es| then es[..index] + es[index + 1..] else es
  }

  // ---- Distinct keys ----

  /** No two entries print the same key. */
  predicate Distinct(es: seq<Entry>) {
    forall i, j :: 0 <= i < j < |es| && Trim(es[i].key) != "" ==> Trim(es[i].key) != Trim(es[j].key)
  }

  predicate TrimmedKeys(es: seq<Entry>) {
    forall i :: 0 <= i < |es| ==> IsTrimmed(es[i].key)
  }

  /** Adding keeps keys distinct exactly when the key is stored as typed or not stored at all. */
  lemma AddKeepsDistinct(es: seq<Entry>, typed: string, value: string)
    requires Distinct(es)
    ensures Distinct(Add(es, typed, value))
            <==> Trim(typed) == "" || Binds(es, Trim(typed)) || !BindsTrimmed(es, Trim(typed))
  {
    var key := Trim(typed);
    TrimOfTrimmed(key);
    if key != "" && !Binds(es, key) && BindsTrimmed(es, key) {
      var i :| 0 <= i < |es| && Trim(es[i].key) == key;
      var added := Add(es, typed, value);
      assert added[i] == es[i] && added[|es|] == Entry(key, value);
    }
  }

  lemma OneLine(line: string)
    requires IsContentLine(line)
    ensures ParseField(line) == [FieldEntry(line)]
  {
    ParsersSkipNothing(line);
    SplitWithout(line, '\n');
    ContentsOfContent([line]);
  }

  lemma TrimsToA()
    ensures Trim("a ") == "a" && Trim("a") == "a"
  {
    assert TrimLeft("a ") == "a ";
    assert "a "[..1] == "a";
    TrimOfTrimmed("a");
  }

  lemma ReadsKeyWithSpace()
    ensures FieldEntry("a =1") == Entry("a ", "1")
  {
    var text := "a =1";
    assert "a " + ['='] + "1" == text;
    IndexOfUnique("a ", '=', "1");
    assert text[..2] == "a " && text[3..] == "1";
  }

  /** The failing case: "a =1" is read with the key "a ", so adding "a" stores the key twice. */
  lemma AddCanDuplicate()
    ensures var es := ParseField("a =1");
            es == [Entry("a ", "1")] && Distinct(es) && !Distinct(Add(es, "a", "2"))
  {
    OneLine("a =1");
    ReadsKeyWithSpace();
    TrimsToA();
    var es := [Entry("a ", "1")];
    assert es[0].key == "a ";
    AddKeepsDistinct(es, "a", "2");
  }

  lemma SuggestKeepsDistinct(es: seq<Entry>, s: Entry)
    requires Distinct(es)
    ensures Distinct(Suggest(es, s))
  {
    TrimOfTrimmed(Trim(s.key));
  }

  lemma RemoveKeepsDistinct(es: seq<Entry>, index: nat)
    requires Distinct(es)
    ensures Distinct(Remove(es, index))
  {
    if index < |es| {
      var r := Remove(es, index);
      forall i, j | 0 <= i < j < |r| && Trim(r[i].key) != "" ensures Trim(r[i].key) != Trim(r[j].key) {
        var i0 := if i < index then i else i + 1;
        var j0 := if j < index then j else j + 1;
        assert r[i] == es[i0] && r[j] == es[j0];
      }
    }
  }

  // ---- What the steps mean ----

  /** Adding a new or once-bound key gives it the typed value and leaves every other key alone. */
  lemma {:induction false} AddMeaning(es: seq<Entry>, typed: string, value: string, key: string)
    requires DistinctKeys(es) && Trim(typed) != ""
    ensures FinalValue(Add(es, typed, value), key) == if key == Trim(typed) then Some(value) else FinalValue(es, key)
    ensures DistinctKeys(Add(es, typed, value))
  {
    var k := Trim(typed);
    var i := IndexOfKey(es, k);
    if i < 0 {
      SnocFinal(es, Entry(k, value), key);
    } else {
      UpdateFinal(es, i, value, key);
    }
  }

  lemma {:induction false} SnocFinal(es: seq<Entry>, e: Entry, key: string)
    ensures FinalValue(es + [e], key) == if e.key == key then Some(e.value) else FinalValue(es, key)
  {
    assert (es + [e])[..|es|] == es;
  }

  lemma {:induction false} UpdateFinal(es: seq<Entry>, i: nat, value: string, key: string)
    requires DistinctKeys(es) && i < |es|
    ensures FinalValue(es[i := Entry(es[i].key, value)], key) == if key == es[i].key then Some(value) else FinalValue(es, key)
    decreases |es|
  {
    var init, last, updated := es[..|es| - 1], es[|es| - 1], es[i := Entry(es[i].key, value)];
    if i == |es| - 1 {
      assert updated == init + [Entry(last.key, value)];
      SnocFinal(init, Entry(last.key, value), key);
    } else {
      UpdateFinal(init, i, value, key);
      assert updated == init[i := Entry(es[i].key, value)] + [last];
      SnocFinal(init[i := Entry(es[i].key, value)], last, key);
    }
  }

  /** A suggestion only adds: every key already bound keeps its value. */
  lemma {:induction false} SuggestMeaning(es: seq<Entry>, s: Entry, key: string)
    ensures FinalValue(Suggest(es, s), key) ==
            if key == Trim(s.key) && key != "" && !BindsTrimmed(es, key) then Some(s.value) else FinalValue(es, key)
  {
    SnocFinal(es, Entry(Trim(s.key), s.value), key);
  }

  // ---- Editing an entry in place ----

  function EditKey(es: seq<Entry>, index: nat, key: string): seq<Entry> {
    if index < |es| then es[index := Entry(key, es[index].value)] else es
  }

  function EditValue(es: seq<Entry>, index: nat, value: string): seq<Entry> {
    if index < |es| then es[index := Entry(es[index].key, value)] else es
  }

  /** No other entry prints the key. */
  predicate FreeFor(es: seq<Entry>, index: nat, key: string) {
    Trim(key) == "" || forall i :: 0 <= i < |es| && i != index ==> Trim(es[i].key) != Trim(key)
  }

  /** Editing a key keeps keys distinct exactly when no other entry prints the new one. */
  lemma EditKeepsDistinct(es: seq<Entry>, index: nat, key: string)
    requires Distinct(es) && index < |es|
    ensures Distinct(EditKey(es, index, key)) <==> FreeFor(es, index, key)
    ensures forall value :: Distinct(EditValue(es, index, value))
  {
    var edited := EditKey(es, index, key);
    if Distinct(edited) && Trim(key) != "" {
      forall i | 0 <= i < |es| && i != index ensures Trim(es[i].key) != Trim(key) {
        assert edited[i] == es[i] && edited[index].key == key;
      }
    }
  }

  /** Removing leaves every other entry as it is, in order. */
  lemma RemoveMeaning(a: seq<Entry>, e: Entry, b: seq<Entry>)
    ensures Remove(a + [e] + b, |a|) == a + b
    ensures forall index: nat :: index >= |a| ==> Remove(a, index) == a
  {
  }

  /** Editing changes one field of one entry. */
  lemma EditMeaning(es: seq<Entry>, index: nat, key: string, value: string)
    requires index < |es|
    ensures |EditKey(es, index, key)| == |es| == |EditValue(es, index, value)|
    ensures EditKey(es, index, key)[index].key == key && EditKey(es, index, key)[index].value == es[index].value
    ensures EditValue(es, index, value)[index].value == value && EditValue(es, index, value)[index].key == es[index].key
    ensures forall i :: 0 <= i < |es| && i != index ==> EditKey(es, index, key)[i] == es[i] == EditValue(es, index, value)[i]
  {
  }

  /** Entry i is the first with the key. */
  predicate IsFirst(es: seq<Entry>, key: string, i: int) {
    0 <= i < |es| && es[i].key == key && forall j :: 0 <= j < i ==> es[j].key != key
  }

  /** Adding keeps every entry in its place: it changes the value of the first entry with that key, or appends one. */
  lemma {:induction false} AddInPlace(es: seq<Entry>, typed: string, value: string)
    ensures var r := Add(es, typed, value);
            && (Trim(typed) == "" ==> r == es)
            && (Trim(typed) != "" && !Binds(es, Trim(typed)) ==> r == es + [Entry(Trim(typed), value)])
            && (forall i :: Trim(typed) != "" && IsFirst(es, Trim(typed), i) ==> r == es[i := Entry(Trim(typed), value)])
  {
    forall i | IsFirst(es, Trim(typed), i) ensures IndexOfKey(es, Trim(typed)) == i {
      FirstKeyAt(es, Trim(typed), i);
    }
  }

  lemma {:induction false} FirstKeyAt(es: seq<Entry>, key: string, i: nat)
    requires IsFirst(es, key, i)
    ensures IndexOfKey(es, key) == i
  {
    if i > 0 {
      assert forall j :: 0 <= j < i - 1 ==> es[1..][j].key != key;
      FirstKeyAt(es[1..], key, i - 1);
    }
  }

  datatype Step =
    | AddStep(typed: string, value: string)
    | SuggestStep(suggestion: Entry)
    | RemoveStep(index: nat)
    | EditKeyStep(index: nat, key: string)
    | EditValueStep(index: nat, value: string)

  function Apply(es: seq<Entry>, step: Step): seq<Entry> {
    match step
    case AddStep(typed, value) => Add(es, typed, value)
    case SuggestStep(s) => Suggest(es, s)
    case RemoveStep(i) => Remove(es, i)
    case EditKeyStep(i, key) => EditKey(es, i, key)
    case EditValueStep(i, value) => EditValue(es, i, value)
  }

  function Run(es: seq<Entry>, steps: seq<Step>): seq<Entry>
    decreases |steps|
  {
    if steps == [] then es else Run(Apply(es, steps[0]), steps[1..])
  }

  lemma {:induction false} RunAppend(es: seq<Entry>, a: seq<Step>, b: seq<Step>)
    ensures Run(es, a + b) == Run(Run(es, a), b)
    ensures forall step :: Run(es, [step]) == Apply(es, step)
    decreases |a|
  {
    assert forall step: Step :: [step][1..] == [];
    if a == [] {
      assert [] + b == b;
    } else {
      assert (a + b)[1..] == a[1..] + b;
      RunAppend(Apply(es, a[0]), a[1..], b);
    }
  }

  /** Every key edited in place is trimmed and free at that moment. */
  ghost predicate Careful(es: seq<Entry>, steps: seq<Step>)
    decreases |steps|
  {
    steps == [] ||
    ((steps[0].EditKeyStep? ==> IsTrimmed(steps[0].key) && FreeFor(es, steps[0].index, steps[0].key))
     && Careful(Apply(es, steps[0]), steps[1..]))
  }

  /** From trimmed distinct keys, no run of steps with careful edits ever makes two entries with one key. */
  lemma {:induction false} RunKeepsDistinct(es: seq<Entry>, steps: seq<Step>)
    requires Distinct(es) && TrimmedKeys(es) && Careful(es, steps)
    ensures Distinct(Run(es, steps)) && TrimmedKeys(Run(es, steps))
    decreases |steps|
  {
    if steps != [] {
      StepKeepsDistinct(es, steps[0]);
      RunKeepsDistinct(Apply(es, steps[0]), steps[1..]);
    }
  }

  lemma StepKeepsDistinct(es: seq<Entry>, step: Step)
    requires Distinct(es) && TrimmedKeys(es)
    requires step.EditKeyStep? ==> IsTrimmed(step.key) && FreeFor(es, step.index, step.key)
    ensures Distinct(Apply(es, step)) && TrimmedKeys(Apply(es, step))
  {
    match step {
      case AddStep(typed, value) =>
        if BindsTrimmed(es, Trim(typed)) {
          var i :| 0 <= i < |es| && Trim(es[i].key) == Trim(typed);
          TrimOfTrimmed(es[i].key);
          assert Binds(es, Trim(typed));
        }
        AddKeepsDistinct(es, typed, value);
      case SuggestStep(s) => SuggestKeepsDistinct(es, s);
      case RemoveStep(i) => RemoveKeepsDistinct(es, i);
      case EditKeyStep(i, key) => if i < |es| { EditKeepsDistinct(es, i, key); }
      case EditValueStep(i, value) => if i < |es| { EditKeepsDistinct(es, i, ""); }
    }
  }

  // ---- Suggestions ----

  /** The value of the first entry whose trimmed key is key. */
  function FirstValue(es: seq<Entry>, key: string): Option<string> {
    if es == [] then None
    else if Trim(es[0].key) == key then Some(es[0].value)
    else FirstValue(es[1..], key)
  }

  function Unique(es: seq<Entry>): seq<Entry> {
    if es == [] then []
    else
      var before, e := Unique(es[..|es| - 1]), es[|es| - 1];
      if Trim(e.key) == "" || Binds(before, Trim(e.key)) then before
      else before + [Entry(Trim(e.key), e.value)]
  }

  lemma {:induction false} FirstValueSnoc(es: seq<Entry>, e: Entry, key: string)
    ensures FirstValue(es + [e], key) ==
            if FirstValue(es, key).Some? then FirstValue(es, key)
            else if Trim(e.key) == key then Some(e.value) else None
  {
    if es == [] {
      assert [] + [e] == [e];
      assert [e][1..] == [];
    } else {
      assert (es + [e])[1..] == es[1..] + [e];
      FirstValueSnoc(es[1..], e, key);
    }
  }

  /** A suggestion group lists each non-blank trimmed key once, with its first value. */
  lemma {:induction false} UniqueMeaning(es: seq<Entry>, key: string)
    ensures DistinctKeys(Unique(es))
    ensures FinalValue(Unique(es), key) == if key == "" then None else FirstValue(es, key)
  {
    if es != [] {
      var init, e := es[..|es| - 1], es[|es| - 1];
      var k := Trim(e.key);
      assert es == init + [e];
      UniqueMeaning(init, key);
      FirstValueSnoc(init, e, key);
      FinalIsBound(Unique(init), k);
      if k != "" && !Binds(Unique(init), k) {
        FinalOfAppend(Unique(init), [Entry(k, e.value)], key);
        FinalOfCons(Entry(k, e.value), [], key);
        assert [Entry(k, e.value)] + [] == [Entry(k, e.value)];
      } else if k != "" {
        UniqueMeaning(init, k);
      }
    }
  }

  method UniqueSuggestions(es: seq<Entry>) returns (unique: seq<Entry>)
    ensures unique == Unique(es)
  {
    unique := [];
    for n := 0 to |es|
      invariant unique == Unique(es[..n])
    {
      assert es[..n + 1][..n] == es[..n];
      var key := Trim(es[n].key);
      if key == "" || IndexOfKey(unique, key) >= 0 {
        continue;
      }
      unique := unique + [Entry(key, es[n].value)];
    }
    assert es[..|es|] == es;
  }

  /** The field's state between events. */
  class Field {
    var entries: seq<Entry>
    var newKey: string
    var newValue: string

    constructor (initialText: string)
      ensures entries == ParseField(initialText) && newKey == newValue == ""
    {
      entries, newKey, newValue := ParseField(initialText), "", "";
    }

    method AddEntry()
      modifies this
      ensures entries == Add(old(entries), old(newKey), old(newValue))
      ensures if Trim(old(newKey)) == "" then newKey == old(newKey) && newValue == old(newValue)
              else newKey == newValue == ""
    {
      var key := Trim(newKey);
      if key == "" { return; }
      var i := IndexOfKey(entries, key);
      if i >= 0 {
        entries := entries[i := Entry(key, newValue)];
      } else {
        entries := entries + [Entry(key, newValue)];
      }
      newKey, newValue := "", "";
    }

    method AddSuggestedEntry(suggestion: Entry)
      modifies this`entries
      ensures entries == Suggest(old(entries), suggestion)
    {
      var key := Trim(suggestion.key);
      if key == "" || exists i :: 0 <= i < |entries| && Trim(entries[i].key) == key { return; }
      entries := entries + [Entry(key, suggestion.value)];
    }

    method RemoveEntry(index: nat)
      modifies this`entries
      ensures entries == Remove(old(entries), index)
    {
      if index < |entries| {
        entries := entries[..index] + entries[index + 1..];
      }
    }

    method UpdateKey(index: nat, key: string)
      modifies this`entries
      ensures entries == EditKey(old(entries), index, key)
    {
      if index < |entries| {
        entries := entries[index := Entry(key, entries[index].value)];
      }
    }

    method UpdateValue(index: nat, value: string)
      modifies this`entries
      ensures entries == EditValue(old(entries), index, value)
    {
      if index < |entries| {
        entries := entries[index := Entry(entries[index].key, value)];
      }
    }
  }
}

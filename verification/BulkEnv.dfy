/** Setting one variable on every container of a tag. */
module BulkEnv {
  import opened Options
  import opened Text
  import opened EnvText
  import opened EnvMerge
  import opened EnvConfig

  /** How the request for a container's configuration ends. A failed request reads as no environment. */
  datatype Fetch = Reached | Unreachable | Throws

  /** How the write of the new configuration ends. A write whose answer is lost takes effect all the same. */
  datatype Write = Accepted | Refused | Unanswered

  datatype Member = Member(isVm: bool, config: string, fetch: Fetch, write: Write)

  datatype Outcome = NoContainers(vmSkipped: nat) | Done(updated: nat, skipped: nat, vmSkipped: nat)

  function EnvRead(m: Member): string {
    if m.fetch.Reached? then Decode(m.config) else ""
  }

  /** The bindings found on a container, one a key. */
  function Found(m: Member): seq<Entry> {
    Override(Bindings(EnvRead(m)))
  }

  /** The configuration written to a container, or None when it keeps its own. */
  function NewConfig(m: Member, key: string, value: string, existingOnly: bool): Option<string> {
    if m.fetch.Throws? || (existingOnly && !Binds(Found(m), key)) || m.write.Refused? then None
    else Encode(Print(Put(Found(m), key, value)))
  }

  /** The container is reported as updated, not as skipped. */
  predicate IsCounted(m: Member, key: string, value: string, existingOnly: bool) {
    NewConfig(m, key, value, existingOnly).Some? && m.write.Accepted?
  }

  function After(m: Member, key: string, value: string, existingOnly: bool): string {
    match NewConfig(m, key, value, existingOnly) case Some(c) => c case None => m.config
  }

  // ---- What one update does ----

  /** A value the text form can carry to its end. */
  predicate PlainValue(value: string) {
    Lacks(value, '\n') && Lacks(value, '\0') && NoTrailingSpace(value)
  }

  lemma {:induction false} PutHolds(m: seq<Entry>, key: string, value: string)
    ensures exists i :: 0 <= i < |Put(m, key, value)| && Put(m, key, value)[i] == Entry(key, value)
  {
    if m != [] && m[0].key != key {
      PutHolds(m[1..], key, value);
      var i :| 0 <= i < |Put(m[1..], key, value)| && Put(m[1..], key, value)[i] == Entry(key, value);
      assert Put(m, key, value)[i + 1] == Entry(key, value);
    } else {
      assert Put(m, key, value)[0] == Entry(key, value);
    }
  }

  lemma {:induction false} PutKeeps(m: seq<Entry>, key: string, value: string)
    requires IsWordKey(key) && PlainValue(value)
    ensures AllClean(m) ==> AllClean(Put(m, key, value))
    ensures NoNul(m) ==> NoNul(Put(m, key, value))
    ensures AllWordKeys(m) <==> AllWordKeys(Put(m, key, value))
  {
    if AllClean(m) { PutClean(m, key, value); }
    if NoNul(m) { PutNoNul(m, key, value); }
    PutWords(m, key, value);
  }

  lemma {:induction false} PutClean(m: seq<Entry>, key: string, value: string)
    requires IsWordKey(key) && PlainValue(value) && AllClean(m)
    ensures AllClean(Put(m, key, value))
  {
    if m != [] && m[0].key != key { PutClean(m[1..], key, value); }
  }

  lemma {:induction false} PutNoNul(m: seq<Entry>, key: string, value: string)
    requires PlainValue(value) && NoNul(m)
    ensures NoNul(Put(m, key, value))
  {
    if m != [] && m[0].key != key { PutNoNul(m[1..], key, value); }
  }

  lemma {:induction false} PutWords(m: seq<Entry>, key: string, value: string)
    requires IsWordKey(key)
    ensures AllWordKeys(m) <==> AllWordKeys(Put(m, key, value))
  {
    if m != [] {
      assert m == [m[0]] + m[1..];
      WordsCons(m[0], m[1..]);
      if m[0].key == key {
        WordsCons(Entry(key, value), m[1..]);
      } else {
        PutWords(m[1..], key, value);
        WordsCons(m[0], Put(m[1..], key, value));
      }
    }
  }

  lemma {:induction false} PutTwice(m: seq<Entry>, key: string, value: string)
    ensures Put(Put(m, key, value), key, value) == Put(m, key, value)
  {
    if m != [] && m[0].key != key { PutTwice(m[1..], key, value); }
  }

  lemma {:induction false} OverrideNoNul(es: seq<Entry>)
    requires NoNul(es)
    ensures NoNul(Override(es))
    decreases |es|
  {
    if es != [] {
      FinalIsBound(es, es[0].key);
      FinalNoNul(es, es[0].key);
      WithoutNoNul(es[1..], es[0].key);
      OverrideNoNul(Without(es[1..], es[0].key));
    }
  }

  lemma {:induction false} FinalNoNul(es: seq<Entry>, key: string)
    requires NoNul(es) && FinalValue(es, key).Some?
    ensures Lacks(FinalValue(es, key).value, '\0')
  {
    if es[|es| - 1].key != key { FinalNoNul(es[..|es| - 1], key); }
  }

  lemma {:induction false} WithoutNoNul(es: seq<Entry>, key: string)
    requires NoNul(es)
    ensures NoNul(Without(es, key))
  {
    if es != [] { WithoutNoNul(es[1..], key); }
  }

  lemma FoundShape(m: Member)
    ensures AllClean(Found(m)) && NoNul(Found(m)) && DistinctKeys(Found(m))
  {
    BindingsClean(EnvRead(m));
    OverrideClean(Bindings(EnvRead(m)));
    OverrideDistinct(Bindings(EnvRead(m)));
    if m.fetch.Reached? { DecodedNulFree(m.config); } else { BindingsLackNul(""); }
    OverrideNoNul(Bindings(EnvRead(m)));
  }

  lemma {:induction false} PutReads(m: Member, key: string, value: string)
    requires IsWordKey(key) && PlainValue(value)
    ensures var es := Put(Found(m), key, value);
            && Bindings(Print(es)) == es && ContentLines(Print(es)) == PrintedLines(es)
            && NoNul(es) && DistinctKeys(es)
  {
    FoundShape(m);
    PutKeeps(Found(m), key, value);
    CleanRoundTrip(Put(Found(m), key, value));
    ContentLinesOfPrint(Put(Found(m), key, value));
    PutOverrides(Found(m), key, value);
    OverrideDistinct(Found(m) + [Entry(key, value)]);
  }

  lemma {:induction false} StoredEnds(config: string)
    ensures forall i :: 0 <= i < |Stored(config)| ==> NoTrailingSpace(Stored(config)[i].value)
    ensures Lacks(config, '\n') ==> forall i :: 0 <= i < |Stored(config)| ==> Lacks(Stored(config)[i].value, '\n')
  {
    if config != "" {
      var parts := Split(config, '\0');
      NonEmptyTrimmed(parts);
      forall i | 0 <= i < |NonEmpty(parts)| ensures NoTrailingSpace(FieldEntry(NonEmpty(parts)[i]).value) {
        FieldValueEnd(NonEmpty(parts)[i]);
      }
      if Lacks(config, '\n') {
        SplitLacks(config, '\0', '\n');
        NonEmptyLacks(parts, '\n');
      }
    }
  }

  lemma {:induction false} NonEmptyLacks(parts: seq<string>, c: char)
    requires AllLack(parts, c)
    ensures AllLack(NonEmpty(parts), c)
  {
    if parts != [] {
      TrimLacks(parts[0], c);
      NonEmptyLacks(parts[1..], c);
    }
  }

  lemma WrittenIsPlain(text: string)
    requires Encode(text).Some?
    ensures forall i :: 0 <= i < |Stored(Encode(text).value)| ==> PlainValue(Stored(Encode(text).value)[i].value)
  {
    EncodeMeaning(text);
    BindingsClean(text);
    var lines := PrintedLines(Bindings(text));
    JoinLacks(lines, '\n', "\0");
    StoredEnds(Encode(text).value);
    StoredNulFree(Encode(text).value);
  }

  /**
   An updated container holds the bindings read from it with only the chosen key overridden, in
   their order, exactly when the value has no newline, no NUL and no trailing white space.
   */
  lemma {:induction false} UpdateOverrides(m: Member, key: string, value: string, existingOnly: bool)
    requires IsWordKey(key) && NewConfig(m, key, value, existingOnly).Some?
    ensures Stored(NewConfig(m, key, value, existingOnly).value) == Put(Found(m), key, value)
            <==> PlainValue(value)
  {
    var es := Put(Found(m), key, value);
    var config := NewConfig(m, key, value, existingOnly).value;
    WrittenIsPlain(Print(es));
    if PlainValue(value) {
      PutReads(m, key, value);
      WriteThenRead(Print(es));
    }
    if Stored(config) == es {
      PutHolds(Found(m), key, value);
      var i :| 0 <= i < |es| && es[i] == Entry(key, value);
      assert PlainValue(Stored(config)[i].value);
    }
  }

  /** Repeating the operation on an updated container writes the same configuration again. */
  lemma UpdateRepeats(m: Member, key: string, value: string, existingOnly: bool)
    requires IsWordKey(key) && PlainValue(value) && NewConfig(m, key, value, existingOnly).Some?
    ensures var config := NewConfig(m, key, value, existingOnly).value;
            NewConfig(m.(config := config, fetch := Reached), key, value, existingOnly) == Some(config)
  {
    var es := Put(Found(m), key, value);
    var config := NewConfig(m, key, value, existingOnly).value;
    var again := m.(config := config, fetch := Reached);
    PutReads(m, key, value);
    WrittenText(Print(es));
    DistinctIsOverridden(es);
    assert Found(again) == es;
    PutTwice(Found(m), key, value);
    PutHolds(Found(m), key, value);
    var i :| 0 <= i < |es| && es[i] == Entry(key, value);
    assert es[i].key == key;
  }

  /** A container whose write is not refused keeps its configuration exactly when the key had to exist and did not, or an old key is no word. */
  lemma SkippedExactly(m: Member, key: string, value: string, existingOnly: bool)
    requires IsWordKey(key) && PlainValue(value) && !m.fetch.Throws? && !m.write.Refused?
    ensures NewConfig(m, key, value, existingOnly).None?
            <==> (existingOnly && !Binds(Found(m), key)) || !AllWordKeys(Found(m))
  {
    PutReads(m, key, value);
    PutKeeps(Found(m), key, value);
    EncodeMeaning(Print(Put(Found(m), key, value)));
  }

  /**
   How the write ends: a refused one leaves the container alone, an unanswered one changes it like an
   accepted one, and only an accepted one is reported as an update.
   */
  lemma {:induction false} WriteDecides(m: Member, key: string, value: string, existingOnly: bool)
    ensures m.write.Refused? ==> After(m, key, value, existingOnly) == m.config
    ensures m.write.Unanswered? ==>
              After(m, key, value, existingOnly) == After(m.(write := Accepted), key, value, existingOnly)
              && !IsCounted(m, key, value, existingOnly)
    ensures m.write.Accepted? ==>
              (!IsCounted(m, key, value, existingOnly) ==> After(m, key, value, existingOnly) == m.config)
              && (IsCounted(m, key, value, existingOnly) <==>
                    !m.fetch.Throws? && (existingOnly ==> Binds(Found(m), key)) && Encode(Print(Put(Found(m), key, value))).Some?)
    ensures m.write.Refused? ==> !IsCounted(m, key, value, existingOnly)
  {
  }

  // ---- What that means for the environment stored before ----

  lemma {:induction false} PutFinal(es: seq<Entry>, key: string, value: string, other: string)
    requires DistinctKeys(es)
    ensures FinalValue(Put(es, key, value), other) == if other == key then Some(value) else FinalValue(es, other)
  {
    PutOverrides(es, key, value);
    OverrideKeepsFinal(es + [Entry(key, value)], other);
    FinalOfAppend(es, [Entry(key, value)], other);
    FinalOfCons(Entry(key, value), [], other);
    assert [Entry(key, value)] + [] == [Entry(key, value)];
  }

  /** A reached container whose entries the text form can carry is read as it is stored. */
  lemma FoundIsStored(m: Member)
    requires m.fetch.Reached? && AllPortable(Stored(m.config))
    ensures Found(m) == Override(Stored(m.config))
  {
    StoredPortable(m.config);
    CleanRoundTrip(Stored(m.config));
  }

  lemma NothingFound(m: Member)
    requires !m.fetch.Reached?
    ensures Found(m) == []
  {
    assert ContentLines("") == [] by {
      assert Split("", '\n') == [""];
      assert Contents([""]) == [];
    }
  }

  /**
   An updated container, all of whose entries the text form can carry, holds its stored entries with
   only the chosen key overridden exactly when its configuration was reached, or held nothing else.
   */
  lemma {:induction false} StoredEntriesSurviveExactly(m: Member, key: string, value: string, existingOnly: bool)
    requires IsWordKey(key) && PlainValue(value) && NewConfig(m, key, value, existingOnly).Some?
    requires AllPortable(Stored(m.config))
    ensures var kept := Put(Override(Stored(m.config)), key, value);
            Stored(NewConfig(m, key, value, existingOnly).value) == kept
            <==> m.fetch.Reached? || kept == [Entry(key, value)]
  {
    UpdateOverrides(m, key, value, existingOnly);
    if m.fetch.Reached? { FoundIsStored(m); } else { NothingFound(m); }
  }

  /** Key by key: a reached container keeps every other value, one that was not reached keeps none. */
  lemma {:induction false} UpdateIsLocal(m: Member, key: string, value: string, existingOnly: bool, other: string)
    requires IsWordKey(key) && PlainValue(value) && NewConfig(m, key, value, existingOnly).Some?
    requires AllPortable(Stored(m.config))
    ensures FinalValue(Stored(NewConfig(m, key, value, existingOnly).value), other) ==
            if other == key then Some(value) else if m.fetch.Reached? then FinalValue(Stored(m.config), other) else None
  {
    UpdateOverrides(m, key, value, existingOnly);
    FoundShape(m);
    PutFinal(Found(m), key, value, other);
    if m.fetch.Reached? {
      FoundIsStored(m);
      OverrideKeepsFinal(Stored(m.config), other);
    } else {
      NothingFound(m);
    }
  }

  /**
   Whatever was stored and however it was read: every other key keeps its value exactly when the text
   that was read, empty when the container was not reached, gives it the value it is stored with.
   */
  lemma {:induction false} EveryKeySurvivesExactly(m: Member, key: string, value: string, existingOnly: bool, other: string)
    requires IsWordKey(key) && PlainValue(value) && NewConfig(m, key, value, existingOnly).Some? && other != key
    ensures FinalValue(Stored(NewConfig(m, key, value, existingOnly).value), other) == FinalValue(Stored(m.config), other)
            <==> FinalValue(Bindings(EnvRead(m)), other) == FinalValue(Stored(m.config), other)
  {
    UpdateOverrides(m, key, value, existingOnly);
    FoundShape(m);
    PutFinal(Found(m), key, value, other);
    OverrideKeepsFinal(Bindings(EnvRead(m)), other);
  }

  /** Whatever was stored: a key that keeps its value is a word, and its value is one line. */
  lemma {:induction false} SurvivorsArePortable(m: Member, key: string, value: string, existingOnly: bool, other: string)
    requires IsWordKey(key) && PlainValue(value) && NewConfig(m, key, value, existingOnly).Some?
    requires FinalValue(Stored(m.config), other).Some?
    requires FinalValue(Stored(NewConfig(m, key, value, existingOnly).value), other) == FinalValue(Stored(m.config), other)
    ensures Portable(Entry(other, FinalValue(Stored(m.config), other).value))
  {
    var es, after := Put(Found(m), key, value), Stored(NewConfig(m, key, value, existingOnly).value);
    UpdateOverrides(m, key, value, existingOnly);
    PutReads(m, key, value);
    EncodeMeaning(Print(es));
    WrittenIsPlain(Print(es));
    FinalIsPlain(after, other);
    FinalIsBound(after, other);
  }

  lemma {:induction false} FinalIsPlain(es: seq<Entry>, key: string)
    requires forall i :: 0 <= i < |es| ==> PlainValue(es[i].value)
    ensures FinalValue(es, key).Some? ==> PlainValue(FinalValue(es, key).value)
  {
    if es != [] && es[|es| - 1].key != key { FinalIsPlain(es[..|es| - 1], key); }
  }

  /** Whatever was stored: an update of any container leaves no value that spans lines, so each key that had one loses it. */
  lemma {:induction false} MultiLineIsLost(m: Member, key: string, value: string, existingOnly: bool, other: string)
    requires NewConfig(m, key, value, existingOnly).Some?
    requires FinalValue(Stored(m.config), other).Some? && !Lacks(FinalValue(Stored(m.config), other).value, '\n')
    ensures FinalValue(Stored(NewConfig(m, key, value, existingOnly).value), other) != FinalValue(Stored(m.config), other)
  {
    WrittenIsPlain(Print(Put(Found(m), key, value)));
    FinalIsPlain(Stored(NewConfig(m, key, value, existingOnly).value), other);
  }

  // ---- A value of two lines ----

  predicate Ordinary(e: Entry) {
    IsWordKey(e.key) && PlainValue(e.value)
  }

  /** The entry of a's key whose value is a's value and, on a second line, the binding b. */
  function Folded(a: Entry, b: Entry): Entry {
    Entry(a.key, a.value + "\n" + Line(b))
  }

  lemma {:induction false} FoldedPrints(a: Entry, b: Entry)
    ensures Print([a, b]) == a.key + ['='] + (a.value + "\n" + Line(b)) && Print([Folded(a, b)]) == Print([a, b])
  {
    assert [a, b][1..] == [b] && [b][1..] == [] && [Folded(a, b)][1..] == [];
    assert PrintedLines([b]) == [Line(b)] && PrintedLines([a, b]) == [Line(a), Line(b)];
    assert Join([Line(a), Line(b)], "\n") == Line(a) + "\n" + Line(b) by {
      assert [Line(a), Line(b)][1..] == [Line(b)];
    }
    assert PrintedLines([Folded(a, b)]) == [Line(Folded(a, b))];
  }

  lemma OrdinaryLine(e: Entry)
    requires Ordinary(e)
    ensures Clean(e) && Lacks(Line(e), '\0') && IsTrimmed(Line(e)) && Line(e) != "" && !IsSpace(e.key[0]) && Lacks(e.key, '=')
  {
    var line := Line(e);
    assert line[0] == e.key[0];
    assert line[|line| - 1] == if e.value == "" then '=' else e.value[|e.value| - 1];
  }

  lemma {:induction false} OneStored(key: string, value: string, config: string)
    requires config == key + ['='] + value && Lacks(key, '=') && Lacks(config, '\0') && IsTrimmed(config)
    ensures Stored(config) == [Entry(key, value)]
  {
    SplitWithout(config, '\0');
    TrimOfTrimmed(config);
    assert [config][1..] == [];
    assert NonEmpty([config]) == [config];
    IndexOfUnique(key, '=', value);
    assert config[..|key|] == key && config[|key| + 1..] == value;
    assert FieldEntries([config]) == [Entry(key, value)];
  }

  /** Such an entry is stored as the text of the two bindings. */
  lemma {:induction false} FoldedIsStored(a: Entry, b: Entry)
    requires Ordinary(a) && Ordinary(b)
    ensures Stored(Print([a, b])) == [Folded(a, b)]
  {
    var config := Print([a, b]);
    FoldedPrints(a, b);
    OrdinaryLine(a);
    OrdinaryLine(b);
    assert config[0] == a.key[0] && config[|config| - 1] == Line(b)[|Line(b)| - 1];
    OneStored(a.key, a.value + "\n" + Line(b), config);
  }

  /** Setting another key on that container cuts the value of a's key, and makes b a variable of its own. */
  lemma {:induction false} SecondLineBecomesVariable(a: Entry, b: Entry, key: string, value: string)
    requires Ordinary(a) && Ordinary(b) && Ordinary(Entry(key, value)) && a.key != b.key && a.key != key && b.key != key
    ensures var m := Member(false, Print([a, b]), Reached, Accepted);
            && Stored(m.config) == [Folded(a, b)] && NewConfig(m, key, value, false).Some?
            && Stored(NewConfig(m, key, value, false).value) == [a, b, Entry(key, value)]
  {
    var m := Member(false, Print([a, b]), Reached, Accepted);
    FoldedIsStored(a, b);
    FoldedPrints(a, b);
    OrdinaryLine(a);
    OrdinaryLine(b);
    CleanRoundTrip([a, b]);
    DistinctIsOverridden([a, b]);
    PutTwoOthers(a, b, key, value);
    SkippedExactly(m, key, value, false);
    UpdateOverrides(m, key, value, false);
  }

  lemma {:induction false} PutTwoOthers(a: Entry, b: Entry, key: string, value: string)
    requires a.key != key && b.key != key
    ensures Put([a, b], key, value) == [a, b, Entry(key, value)]
  {
    assert [a, b][1..] == [b] && [b][1..] == [];
    assert Put([b], key, value) == [b] + Put([], key, value);
  }

  /** A container whose configuration could not be read loses every other variable. */
  lemma UnreachableIsReplaced(m: Member, key: string, value: string)
    requires IsWordKey(key) && PlainValue(value) && m.fetch.Unreachable? && !m.write.Refused?
    ensures NewConfig(m, key, value, false).Some?
    ensures Stored(NewConfig(m, key, value, false).value) == [Entry(key, value)]
  {
    NothingFound(m);
    SkippedExactly(m, key, value, false);
    UpdateOverrides(m, key, value, false);
  }

  // ---- The loop ----

  function Lxc(members: seq<Member>): (r: seq<Member>)
    ensures |r| <= |members|
  {
    if members == [] then []
    else if members[0].isVm then Lxc(members[1..]) else [members[0]] + Lxc(members[1..])
  }

  /** Containers are taken, virtual machines left out, in the order they come. */
  lemma {:induction false} LxcInOrder(a: seq<Member>, m: Member, b: seq<Member>)
    ensures Lxc([]) == []
    ensures Lxc(a + [m] + b) == Lxc(a) + (if m.isVm then [] else [m]) + Lxc(b)
  {
    if a == [] {
      assert [] + [m] + b == [m] + b;
      assert ([m] + b)[1..] == b;
    } else {
      assert (a + [m] + b)[1..] == a[1..] + [m] + b;
      LxcInOrder(a[1..], m, b);
    }
  }

  lemma {:induction false} LxcExactly(members: seq<Member>, m: Member)
    ensures m in Lxc(members) <==> m in members && !m.isVm
    ensures multiset(Lxc(members))[m] == if m.isVm then 0 else multiset(members)[m]
  {
    if members != [] {
      assert members == [members[0]] + members[1..];
      LxcExactly(members[1..], m);
    }
  }

  lemma {:induction false} VmsAreSkipped(members: seq<Member>)
    ensures |set i | 0 <= i < |members| && members[i].isVm| == |members| - |Lxc(members)|
  {
    if members != [] {
      var init, last := members[..|members| - 1], members[|members| - 1];
      VmsAreSkipped(init);
      LxcInOrder(init, last, []);
      assert init + [last] + [] == members && init + [last] == members;
      VmsSnoc(init, last);
    }
  }

  lemma VmsSnoc(init: seq<Member>, m: Member)
    ensures |set i | 0 <= i < |init + [m]| && (init + [m])[i].isVm| ==
            |set i | 0 <= i < |init| && init[i].isVm| + if m.isVm then 1 else 0
  {
    var a, b := set i | 0 <= i < |init| && init[i].isVm, set i | 0 <= i < |init + [m]| && (init + [m])[i].isVm;
    assert b == a + if m.isVm then {|init|} else {};
    assert |init| !in a;
  }

  /** How many of ms are reported as updated. */
  function Updated(ms: seq<Member>, key: string, value: string, existingOnly: bool): (n: nat)
    ensures n <= |ms|
  {
    if ms == [] then 0
    else Updated(ms[..|ms| - 1], key, value, existingOnly)
         + if IsCounted(ms[|ms| - 1], key, value, existingOnly) then 1 else 0
  }

  /** The configurations the containers end up with. */
  function AfterAll(ms: seq<Member>, key: string, value: string, existingOnly: bool): (r: seq<string>)
    ensures |r| == |ms| && forall i :: 0 <= i < |r| ==> r[i] == After(ms[i], key, value, existingOnly)
  {
    seq(|ms|, i requires 0 <= i < |ms| => After(ms[i], key, value, existingOnly))
  }

  lemma {:induction false} OneMore(ms: seq<Member>, i: nat, key: string, value: string, existingOnly: bool)
    requires i < |ms|
    ensures AfterAll(ms[..i + 1], key, value, existingOnly)
            == AfterAll(ms[..i], key, value, existingOnly) + [After(ms[i], key, value, existingOnly)]
    ensures Updated(ms[..i + 1], key, value, existingOnly)
            == Updated(ms[..i], key, value, existingOnly)
               + if IsCounted(ms[i], key, value, existingOnly) then 1 else 0
  {
    assert ms[..i + 1][..i] == ms[..i];
  }

  /** The rewritten text of one container, or None when an existing key was required. */
  method Rewrite(text: string, key: string, value: string, existingOnly: bool) returns (r: Option<string>)
    ensures r == var es := Override(Bindings(text));
                 if existingOnly && !Binds(es, key) then None else Some(Print(Put(es, key, value)))
  {
    var m := ReadInto([], text, []);
    assert [] + Bindings(text) == Bindings(text);
    if existingOnly && !exists i :: 0 <= i < |m| && m[i].key == key {
      return None;
    }
    m := Put(m, key, value);
    r := Some(Print(m));
  }

  /** One pass of the loop body: the configuration written, if any, and whether the container counts as updated. */
  method SetOne(member: Member, key: string, value: string, existingOnly: bool) returns (written: Option<string>, counted: bool)
    ensures written == NewConfig(member, key, value, existingOnly)
    ensures counted == IsCounted(member, key, value, existingOnly)
  {
    if member.fetch.Throws? {
      return None, false;
    }
    var text := Rewrite(EnvRead(member), key, value, existingOnly);
    if text.None? {
      return None, false;
    }
    written := Encode(text.value);
    if member.write.Refused? {
      written := None;
    }
    counted := written.Some? && !member.write.Unanswered?;
  }

  /** Every member is updated, skipped or excluded, and each container ends up as NewConfig says. */
  method BulkSetEnv(members: seq<Member>, key: string, value: string, existingOnly: bool)
    returns (outcome: Outcome, configs: seq<string>)
    ensures outcome.vmSkipped == |set i | 0 <= i < |members| && members[i].isVm|
    ensures outcome.vmSkipped + |Lxc(members)| == |members|
    ensures outcome.NoContainers? <==> Lxc(members) == []
    ensures outcome.Done? ==> outcome.updated + outcome.skipped + outcome.vmSkipped == |members|
    ensures outcome.Done? ==> outcome.updated == Updated(Lxc(members), key, value, existingOnly)
    ensures configs == AfterAll(Lxc(members), key, value, existingOnly)
  {
    var lxc := Lxc(members);
    var vmSkipped := |members| - |lxc|;
    VmsAreSkipped(members);
    configs := [];
    if lxc == [] {
      return NoContainers(vmSkipped), configs;
    }
    var updated, skipped := 0, 0;
    for i := 0 to |lxc|
      invariant updated == Updated(lxc[..i], key, value, existingOnly) && updated + skipped == i
      invariant configs == AfterAll(lxc[..i], key, value, existingOnly)
    {
      OneMore(lxc, i, key, value, existingOnly);
      var written, counted := SetOne(lxc[i], key, value, existingOnly);
      configs := configs + [if written.Some? then written.value else lxc[i].config];
      if counted {
        updated := updated + 1;
      } else {
        skipped := skipped + 1;
      }
    }
    assert lxc[..|lxc|] == lxc;
    outcome := Done(updated, skipped, vmSkipped);
  }
}

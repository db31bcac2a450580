/**
 Merging two environment texts: later bindings override earlier ones, and a key keeps the
 position of its first binding. The server and the launch panel each hold a copy of the loop.
 */
module EnvMerge {
  import opened Options
  import opened Text
  import opened EnvText

  // ---- What override means, independently of any map ----

  predicate Binds(es: seq<Entry>, key: string) {
    exists i :: 0 <= i < |es| && es[i].key == key
  }

  /** The value of the last binding of key. */
  function FinalValue(es: seq<Entry>, key: string): Option<string> {
    if es == [] then None
    else if es[|es| - 1].key == key then Some(es[|es| - 1].value)
    else FinalValue(es[..|es| - 1], key)
  }

  function Without(es: seq<Entry>, key: string): (r: seq<Entry>)
    ensures |r| <= |es|
  {
    if es == [] then []
    else if es[0].key == key then Without(es[1..], key)
    else [es[0]] + Without(es[1..], key)
  }

  /** One binding a key: keys in order of first appearance, each with its final value. */
  function Override(es: seq<Entry>): seq<Entry>
    decreases |es|
  {
    if es == [] then []
    else
      var key := es[0].key;
      FinalIsBound(es, key);
      [Entry(key, FinalValue(es, key).value)] + Override(Without(es[1..], key))
  }

  function Merge(existing: string, incoming: string): string {
    Print(Override(Bindings(existing) + Bindings(incoming)))
  }

  lemma {:induction false} FinalIsBound(es: seq<Entry>, key: string)
    ensures FinalValue(es, key).Some? <==> Binds(es, key)
  {
    if es != [] {
      var init := es[..|es| - 1];
      FinalIsBound(init, key);
      if Binds(es, key) && es[|es| - 1].key != key {
        var i :| 0 <= i < |es| && es[i].key == key;
        assert init[i].key == key;
      }
      if Binds(init, key) {
        var i :| 0 <= i < |init| && init[i].key == key;
        assert es[i].key == key;
      }
    }
  }

  // ---- Lists of bindings ----

  lemma {:induction false} FinalOfAppend(a: seq<Entry>, b: seq<Entry>, key: string)
    ensures FinalValue(a + b, key) ==
            if FinalValue(b, key).Some? then FinalValue(b, key) else FinalValue(a, key)
    decreases |b|
  {
    if b == [] {
      assert a + b == a;
    } else {
      assert (a + b)[..|a + b| - 1] == a + b[..|b| - 1];
      FinalOfAppend(a, b[..|b| - 1], key);
    }
  }

  lemma {:induction false} FinalOfCons(e: Entry, es: seq<Entry>, key: string)
    ensures FinalValue([e] + es, key) ==
            if FinalValue(es, key).Some? then FinalValue(es, key)
            else if e.key == key then Some(e.value) else None
  {
    FinalOfAppend([e], es, key);
    assert [e][..0] == [];
    assert FinalValue([e], key) == if e.key == key then Some(e.value) else FinalValue([e][..0], key);
  }

  lemma {:induction false} WithoutAppend(a: seq<Entry>, b: seq<Entry>, key: string)
    ensures Without(a + b, key) == Without(a, key) + Without(b, key)
  {
    if a == [] {
      assert a + b == b;
    } else {
      assert (a + b)[1..] == a[1..] + b;
      WithoutAppend(a[1..], b, key);
    }
  }

  lemma {:induction false} WithoutSelf(es: seq<Entry>, key: string)
    requires FinalValue(es, key).None?
    ensures Without(es, key) == es
  {
    if es != [] {
      assert es == [es[0]] + es[1..];
      FinalOfCons(es[0], es[1..], key);
      WithoutSelf(es[1..], key);
    }
  }

  lemma {:induction false} FinalOfWithout(es: seq<Entry>, gone: string, key: string)
    ensures FinalValue(Without(es, gone), key) == if key == gone then None else FinalValue(es, key)
  {
    if es != [] {
      assert es == [es[0]] + es[1..];
      FinalOfCons(es[0], es[1..], key);
      FinalOfWithout(es[1..], gone, key);
      FinalOfCons(es[0], Without(es[1..], gone), key);
    }
  }

  lemma {:induction false} WithoutCommutes(es: seq<Entry>, k1: string, k2: string)
    ensures Without(Without(es, k1), k2) == Without(Without(es, k2), k1)
  {
    if es != [] { WithoutCommutes(es[1..], k1, k2); }
  }

  // ---- Override as an operator on binding lists ----

  /** Override of a list given by its head and tail. */
  lemma {:induction false} OverrideCons(e: Entry, es: seq<Entry>)
    ensures Override([e] + es) ==
            [Entry(e.key, if FinalValue(es, e.key).Some? then FinalValue(es, e.key).value else e.value)]
            + Override(Without(es, e.key))
  {
    assert ([e] + es)[1..] == es;
    FinalOfCons(e, es, e.key);
  }

  /** Override changes no key's final value. */
  lemma {:induction false} OverrideKeepsFinal(es: seq<Entry>, key: string)
    ensures FinalValue(Override(es), key) == FinalValue(es, key)
    decreases |es|
  {
    if es != [] {
      var k := es[0].key;
      var rest := Without(es[1..], k);
      assert es == [es[0]] + es[1..];
      FinalOfCons(es[0], es[1..], k);
      OverrideKeepsFinal(rest, key);
      FinalOfWithout(es[1..], k, key);
      FinalOfCons(es[0], es[1..], key);
      FinalOfCons(Entry(k, FinalValue(es, k).value), Override(rest), key);
    }
  }

  lemma {:induction false} OverrideWithout(es: seq<Entry>, key: string)
    ensures Without(Override(es), key) == Override(Without(es, key))
    decreases |es|
  {
    if es != [] {
      var k := es[0].key;
      var rest := Without(es[1..], k);
      FinalIsBound(es, k);
      var head := Entry(k, FinalValue(es, k).value);
      assert Override(es) == [head] + Override(rest);
      OverrideWithout(rest, key);
      if k == key {
        FinalOfWithout(es[1..], k, k);
        WithoutSelf(rest, k);
      } else {
        WithoutCommutes(es[1..], k, key);
        FinalOfWithout(es, key, k);
        assert Without(es, key) == [es[0]] + Without(es[1..], key);
      }
    }
  }

  /** Overriding the front of a list first changes nothing. */
  lemma {:induction false} OverrideFront(x: seq<Entry>, y: seq<Entry>)
    ensures Override(Override(x) + y) == Override(x + y)
    decreases |x|
  {
    if x != [] {
      var e, t := x[0], x[1..];
      var k := e.key;
      var rest := Without(t, k);
      OverrideCons(e, t);
      var head := Override([e] + t)[0];
      assert x == [e] + t;
      assert Override(x) + y == [head] + (Override(rest) + y);
      assert x + y == [e] + (t + y);
      OverrideCons(head, Override(rest) + y);
      OverrideCons(e, t + y);
      FrontHeads(t, y, k);
      OverrideFront(rest, Without(y, k));
    }
  }

  lemma {:induction false} FrontHeads(t: seq<Entry>, y: seq<Entry>, k: string)
    ensures FinalValue(Override(Without(t, k)) + y, k) == FinalValue(y, k)
    ensures FinalValue(t + y, k) == if FinalValue(y, k).Some? then FinalValue(y, k) else FinalValue(t, k)
    ensures Without(Override(Without(t, k)) + y, k) == Override(Without(t, k)) + Without(y, k)
    ensures Without(t + y, k) == Without(t, k) + Without(y, k)
  {
    var rest := Without(t, k);
    FinalOfAppend(Override(rest), y, k);
    FinalOfAppend(t, y, k);
    FinalOfWithout(t, k, k);
    OverrideKeepsFinal(rest, k);
    WithoutSelf(Override(rest), k);
    WithoutAppend(Override(rest), y, k);
    WithoutAppend(t, y, k);
  }

  /** Overriding the back of a list first changes nothing. */
  lemma {:induction false} OverrideBack(x: seq<Entry>, y: seq<Entry>)
    ensures Override(x + Override(y)) == Override(x + y)
    decreases |x|
  {
    if x == [] {
      assert x + Override(y) == Override(y) + [] && x + y == y + [];
      OverrideFront(y, []);
    } else {
      var e, t := x[0], x[1..];
      assert x + Override(y) == [e] + (t + Override(y));
      assert x + y == [e] + (t + y);
      OverrideCons(e, t + Override(y));
      OverrideCons(e, t + y);
      FinalOfAppend(t, Override(y), e.key);
      FinalOfAppend(t, y, e.key);
      OverrideKeepsFinal(y, e.key);
      WithoutAppend(t, Override(y), e.key);
      WithoutAppend(t, y, e.key);
      OverrideWithout(y, e.key);
      OverrideBack(Without(t, e.key), Without(y, e.key));
    }
  }

  /** Repeating the front of a list changes nothing. */
  lemma {:induction false} OverrideRepeat(x: seq<Entry>, y: seq<Entry>)
    ensures Override(x + (x + y)) == Override(x + y)
    decreases |x|
  {
    if x == [] {
      assert x + (x + y) == x + y;
    } else {
      var e, t := x[0], x[1..];
      var xy := [e] + (t + y);
      assert x + y == xy && x + (x + y) == [e] + (t + xy);
      OverrideCons(e, t + xy);
      OverrideCons(e, t + y);
      FinalOfAppend(t, xy, e.key);
      FinalOfCons(e, t + y, e.key);
      WithoutAppend(t, xy, e.key);
      assert xy[1..] == t + y;
      WithoutAppend(t, y, e.key);
      OverrideRepeat(Without(t, e.key), Without(y, e.key));
    }
  }

  predicate DistinctKeys(es: seq<Entry>) {
    forall i, j :: 0 <= i < j < |es| ==> es[i].key != es[j].key
  }

  lemma {:induction false} OverrideDistinct(es: seq<Entry>)
    ensures DistinctKeys(Override(es))
    decreases |es|
  {
    if es != [] {
      var k := es[0].key;
      var rest := Without(es[1..], k);
      OverrideDistinct(rest);
      FinalOfWithout(es[1..], k, k);
      OverrideKeepsFinal(rest, k);
      FinalIsBound(Override(rest), k);
    }
  }

  lemma {:induction false} WithoutClean(es: seq<Entry>, key: string)
    requires AllClean(es)
    ensures AllClean(Without(es, key))
  {
    if es != [] { WithoutClean(es[1..], key); }
  }

  lemma {:induction false} FinalClean(es: seq<Entry>, key: string)
    requires AllClean(es) && FinalValue(es, key).Some?
    ensures Clean(Entry(key, FinalValue(es, key).value))
  {
    if es[|es| - 1].key != key { FinalClean(es[..|es| - 1], key); }
  }

  lemma {:induction false} OverrideClean(es: seq<Entry>)
    requires AllClean(es)
    ensures AllClean(Override(es))
    decreases |es|
  {
    if es != [] {
      var k := es[0].key;
      FinalIsBound(es, k);
      FinalClean(es, k);
      WithoutClean(es[1..], k);
      OverrideClean(Without(es[1..], k));
    }
  }

  // ---- The laws of merging, at the level of exact text ----

  /** Reading a merge back gives the overridden bindings. */
  lemma MergeBindings(a: string, b: string)
    ensures AllClean(Override(Bindings(a) + Bindings(b)))
    ensures Bindings(Merge(a, b)) == Override(Bindings(a) + Bindings(b))
  {
    BindingsClean(a);
    BindingsClean(b);
    OverrideClean(Bindings(a) + Bindings(b));
    CleanRoundTrip(Override(Bindings(a) + Bindings(b)));
  }

  /** Both browser editors read a merge exactly as the server does and print it back unchanged. */
  lemma MergeReadsAlike(a: string, b: string)
    ensures var m := Merge(a, b);
            && ParseField(m) == Bindings(m) && ParseEditor(m) == Bindings(m)
            && PrintField(ParseField(m)) == m && PrintEditor(ParseEditor(m)) == m
  {
    MergeBindings(a, b);
    var es := Override(Bindings(a) + Bindings(b));
    CleanRoundTrip(es);
    KeptClean(es, true);
    KeptClean(es, false);
  }

  lemma {:induction false} KeptClean(es: seq<Entry>, trimKey: bool)
    requires AllClean(es)
    ensures Kept(es, trimKey) == es
  {
    if es != [] {
      TrimOfTrimmed(es[0].key);
      KeptClean(es[1..], trimKey);
    }
  }

  /** Right-biased override: incoming decides wherever it binds the key. */
  lemma {:induction false} MergeMeaning(a: string, b: string, key: string)
    ensures FinalValue(Bindings(Merge(a, b)), key) ==
            if Binds(Bindings(b), key) then FinalValue(Bindings(b), key) else FinalValue(Bindings(a), key)
    ensures DistinctKeys(Bindings(Merge(a, b)))
  {
    MergeBindings(a, b);
    OverrideKeepsFinal(Bindings(a) + Bindings(b), key);
    FinalOfAppend(Bindings(a), Bindings(b), key);
    FinalIsBound(Bindings(b), key);
    OverrideDistinct(Bindings(a) + Bindings(b));
  }

  /** A merged text is a fixed point on either side. */
  lemma MergeFixedPoint(a: string, b: string)
    ensures Merge("", Merge(a, b)) == Merge(a, b) == Merge(Merge(a, b), "")
  {
    MergeBindings(a, b);
    var es := Bindings(a) + Bindings(b);
    assert ContentLines("") == [] by {
      assert Split("", '\n') == [""];
      assert Contents([""]) == [];
    }
    OverrideBack([], es);
    OverrideFront(es, []);
    assert [] + Override(es) == Override(es) && [] + es == es;
    assert Override(es) + [] == Override(es) && es + [] == es;
  }

  lemma {:induction false} OverrideAssociative(x: seq<Entry>, y: seq<Entry>, z: seq<Entry>)
    ensures Override(Override(x + y) + z) == Override(x + Override(y + z))
  {
    OverrideFront(x + y, z);
    OverrideBack(x, y + z);
    Associate(x, y, z);
  }

  lemma Associate(x: seq<Entry>, y: seq<Entry>, z: seq<Entry>)
    ensures (x + y) + z == x + (y + z)
  {
  }

  lemma MergeAssociative(a: string, b: string, c: string)
    ensures Merge(Merge(a, b), c) == Merge(a, Merge(b, c))
  {
    MergeBindings(a, b);
    MergeBindings(b, c);
    OverrideAssociative(Bindings(a), Bindings(b), Bindings(c));
  }

  /** The launch panel merges, and the server merges the result over the same image text again. */
  lemma MergeAbsorbs(a: string, b: string)
    ensures Merge(a, Merge(a, b)) == Merge(a, b)
  {
    var x, y := Bindings(a), Bindings(b);
    MergeBindings(a, b);
    OverrideBack(x, x + y);
    OverrideRepeat(x, y);
  }

  // ---- Order of keys ----

  function Keys(es: seq<Entry>): (r: seq<string>)
    ensures |r| == |es| && forall i :: 0 <= i < |r| ==> r[i] == es[i].key
  {
    seq(|es|, i requires 0 <= i < |es| => es[i].key)
  }

  /** Entries of es whose key base does not bind. */
  function NotBoundBy(es: seq<Entry>, base: seq<Entry>): (r: seq<Entry>)
    ensures |r| <= |es|
    decreases |es|
  {
    if es == [] then []
    else if FinalValue(base, es[0].key).Some? then NotBoundBy(es[1..], base)
    else [es[0]] + NotBoundBy(es[1..], base)
  }

  lemma {:induction false} NotBoundByCons(y: seq<Entry>, e: Entry, x: seq<Entry>)
    ensures NotBoundBy(y, [e] + x) == NotBoundBy(Without(y, e.key), x)
    ensures NotBoundBy(Without(y, e.key), x) == NotBoundBy(Without(y, e.key), Without(x, e.key))
    decreases |y|
  {
    if y != [] {
      FinalOfCons(e, x, y[0].key);
      FinalOfWithout(x, e.key, y[0].key);
      NotBoundByCons(y[1..], e, x);
    }
  }

  /** Keys in order of first appearance. */
  function FirstKeys(es: seq<Entry>): seq<string>
    decreases |es|
  {
    if es == [] then [] else [es[0].key] + FirstKeys(Without(es[1..], es[0].key))
  }

  lemma {:induction false} OverrideKeys(es: seq<Entry>)
    ensures Keys(Override(es)) == FirstKeys(es)
    decreases |es|
  {
    if es != [] {
      var rest := Without(es[1..], es[0].key);
      OverrideKeys(rest);
      KeysCons(Override(es)[0], Override(rest));
    }
  }

  lemma KeysCons(e: Entry, es: seq<Entry>)
    ensures Keys([e] + es) == [e.key] + Keys(es)
  {
  }

  /** The keys of an append: those of x, then those y adds. */
  lemma {:induction false} FirstKeysAppend(x: seq<Entry>, y: seq<Entry>)
    ensures FirstKeys(x + y) == FirstKeys(x) + FirstKeys(NotBoundBy(y, x))
    decreases |x|
  {
    if x == [] {
      assert x + y == y;
      NothingBound(y);
    } else {
      var k, t := x[0].key, x[1..];
      assert x == [x[0]] + t;
      assert (x + y)[1..] == t + y;
      WithoutAppend(t, y, k);
      NotBoundByCons(y, x[0], t);
      FirstKeysAppend(Without(t, k), Without(y, k));
    }
  }

  lemma {:induction false} NothingBound(y: seq<Entry>)
    ensures NotBoundBy(y, []) == y
  {
    if y != [] { NothingBound(y[1..]); }
  }

  /** Existing keys keep their order and place; keys only incoming binds follow in its order. */
  lemma MergeKeyOrder(a: string, b: string)
    ensures Keys(Bindings(Merge(a, b))) ==
            FirstKeys(Bindings(a)) + FirstKeys(NotBoundBy(Bindings(b), Bindings(a)))
  {
    MergeBindings(a, b);
    OverrideKeys(Bindings(a) + Bindings(b));
    FirstKeysAppend(Bindings(a), Bindings(b));
  }

  // ---- The loop: an insertion-ordered map filled line by line ----

  /** Map.set: overwrite in place, or append. */
  function Put(m: seq<Entry>, key: string, value: string): seq<Entry> {
    if m == [] then [Entry(key, value)]
    else if m[0].key == key then [Entry(key, value)] + m[1..]
    else [m[0]] + Put(m[1..], key, value)
  }

  /** Setting a key of a map of overridden bindings is overriding once more. */
  lemma {:induction false} PutOverrides(m: seq<Entry>, key: string, value: string)
    requires DistinctKeys(m)
    ensures Put(m, key, value) == Override(m + [Entry(key, value)])
    decreases |m|
  {
    var e := Entry(key, value);
    if m == [] {
      assert m + [e] == [e];
      FinalOfCons(e, [], key);
      assert [e] + [] == [e];
      assert Override([e][1..]) == [];
    } else {
      var k := m[0].key;
      assert (m + [e])[1..] == m[1..] + [e];
      assert m == [m[0]] + m[1..];
      assert !Binds(m[1..], k);
      FinalIsBound(m[1..], k);
      WithoutSelf(m[1..], k);
      WithoutAppend(m[1..], [e], k);
      FinalOfAppend(m, [e], k);
      FinalOfCons(m[0], m[1..], k);
      FinalOfCons(e, [], k);
      assert [e] + [] == [e];
      if k == key {
        assert Without([e], k) == [];
        assert m[1..] + [] == m[1..];
        DistinctIsOverridden(m[1..]);
      } else {
        assert Without([e], k) == [e];
        PutOverrides(m[1..], key, value);
      }
    }
  }

  lemma {:induction false} DistinctIsOverridden(m: seq<Entry>)
    requires DistinctKeys(m)
    ensures Override(m) == m
  {
    if m != [] {
      var k := m[0].key;
      assert !Binds(m[1..], k);
      FinalIsBound(m[1..], k);
      WithoutSelf(m[1..], k);
      assert m == [m[0]] + m[1..];
      FinalOfCons(m[0], m[1..], k);
      DistinctIsOverridden(m[1..]);
    }
  }

  /** One map update keeps pace with one more line. */
  lemma {:induction false} PutLine(es: seq<Entry>, e: Entry)
    ensures Put(Override(es), e.key, e.value) == Override(es + [e])
  {
    OverrideDistinct(es);
    PutOverrides(Override(es), e.key, e.value);
    OverrideFront(es, [e]);
  }

  lemma {:induction false} ServerEntriesAppend(a: seq<string>, b: seq<string>)
    ensures ServerEntries(a + b) == ServerEntries(a) + ServerEntries(b)
  {
    if a == [] {
      assert a + b == b;
    } else {
      assert (a + b)[1..] == a[1..] + b;
      ServerEntriesAppend(a[1..], b);
    }
  }

  lemma {:induction false} ContentsAppend(a: seq<string>, b: seq<string>)
    ensures Contents(a + b) == Contents(a) + Contents(b)
  {
    if a == [] {
      assert a + b == b;
    } else {
      assert (a + b)[1..] == a[1..] + b;
      ContentsAppend(a[1..], b);
    }
  }

  /** What one line adds to the map. */
  function LineEntries(line: string): seq<Entry> {
    ServerEntries(Contents([line]))
  }

  lemma LinesSoFar(lines: seq<string>, i: nat)
    requires i < |lines|
    ensures ServerEntries(Contents(lines[..i + 1])) == ServerEntries(Contents(lines[..i])) + LineEntries(lines[i])
  {
    assert lines[..i + 1] == lines[..i] + [lines[i]];
    ContentsAppend(lines[..i], [lines[i]]);
    ServerEntriesAppend(Contents(lines[..i]), Contents([lines[i]]));
  }

  lemma LineEntriesCases(line: string)
    ensures var t := Trim(line);
            var sep := IndexOf(t, '=');
            LineEntries(line) ==
            if IsContent(t) && sep > 0 then [Entry(Trim(t[..sep]), t[sep + 1..])] else []
  {
    var t := Trim(line);
    assert [line][1..] == [];
    assert Contents([line]) == if IsContent(t) then [t] else [];
    if IsContent(t) {
      assert [t][1..] == [];
      assert ServerEntries([t]) == match ServerEntry(t) case Some(e) => [e] case None => [];
    }
  }

  lemma {:induction false} PutLines(es: seq<Entry>, more: seq<Entry>)
    requires |more| <= 1
    ensures Override(es + more) == if more == [] then Override(es) else Put(Override(es), more[0].key, more[0].value)
  {
    if more == [] {
      assert es + more == es;
    } else {
      assert more == [more[0]];
      PutLine(es, more[0]);
    }
  }

  /** The map after the lines read so far, over the bindings before them. */
  ghost function Filled(before: seq<Entry>, lines: seq<string>): seq<Entry> {
    Override(before + ServerEntries(Contents(lines)))
  }

  /** One turn of the loop. */
  function ReadLine(m: seq<Entry>, line: string): seq<Entry> {
    var t := Trim(line);
    var sep := IndexOf(t, '=');
    if IsContent(t) && sep > 0 then Put(m, Trim(t[..sep]), t[sep + 1..]) else m
  }

  lemma FilledByLine(before: seq<Entry>, lines: seq<string>, i: nat)
    requires i < |lines|
    ensures Filled(before, lines[..i + 1]) == ReadLine(Filled(before, lines[..i]), lines[i])
  {
    var read := ServerEntries(Contents(lines[..i]));
    LinesSoFar(lines, i);
    LineEntriesCases(lines[i]);
    Associate(before, read, LineEntries(lines[i]));
    PutLines(before + read, LineEntries(lines[i]));
  }

  lemma {:induction false} FilledEnds(before: seq<Entry>, lines: seq<string>)
    ensures Filled(before, lines[..0]) == Override(before)
    ensures Filled(before, lines[..|lines|]) == Filled(before, lines)
  {
    assert lines[..0] == [] && lines[..|lines|] == lines;
    assert before + [] == before;
  }

  /** The maps between the turns of the loop, from the overridden bindings before the text to those after it. */
  lemma Stages(before: seq<Entry>, lines: seq<string>) returns (stages: seq<seq<Entry>>)
    ensures |stages| == |lines| + 1
    ensures stages[0] == Override(before) && stages[|lines|] == Filled(before, lines)
    ensures forall i :: 0 <= i < |lines| ==> stages[i + 1] == ReadLine(stages[i], lines[i])
  {
    stages := seq(|lines| + 1, i requires 0 <= i <= |lines| => Filled(before, lines[..i]));
    FilledEnds(before, lines);
    forall i | 0 <= i < |lines| ensures stages[i + 1] == ReadLine(stages[i], lines[i]) {
      FilledByLine(before, lines, i);
    }
  }

  /** Reads one text into the map. */
  method ReadInto(start: seq<Entry>, text: string, ghost before: seq<Entry>) returns (m: seq<Entry>)
    requires start == Override(before)
    ensures m == Override(before + Bindings(text))
  {
    var lines := Split(text, '\n');
    m := start;
    ghost var stages := Stages(before, lines);
    for i := 0 to |lines|
      invariant m == stages[i]
    {
      var trimmed := Trim(lines[i]);
      if trimmed == "" || trimmed[0] == '#' {
        continue;
      }
      var sep := IndexOf(trimmed, '=');
      if sep > 0 {
        m := Put(m, Trim(trimmed[..sep]), trimmed[sep + 1..]);
      }
    }
  }

  method MergeEnvText(existing: string, incoming: string) returns (text: string)
    ensures text == Merge(existing, incoming)
  {
    var m := ReadInto([], existing, []);
    assert [] + Bindings(existing) == Bindings(existing);
    m := ReadInto(m, incoming, Bindings(existing));
    text := Print(m);
  }
}

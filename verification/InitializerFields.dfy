/** What the runner makes of any printed fields, in any order, repeated, with gaps in
    the choice indices or fields missing. */
module InitializerFields {
  import opened CText
  import opened Initializer
  import opened PrintedEntry
  import Py = PyGrader

  // ---- any fields ----

  /** No later field has the same name or index. */
  predicate LastOne(fs: seq<Field>, i: nat)
    requires i < |fs|
  {
    forall j :: i < j < |fs| ==> NameOf(fs[j]) != NameOf(fs[i]) || IndexOf(fs[j]) != IndexOf(fs[i])
  }

  /** The names hold what is last assigned to them, and so do the choices; a choice that
      is not assigned is empty. */
  predicate Holds(f: Fields, fs: seq<Field>) { NamesHold(f.named, fs) && ChoicesHold(f.choices, fs) }

  predicate NamesHold(named: map<string, string>, fs: seq<Field>) {
    && (forall i :: 0 <= i < |fs| && fs[i].Named? ==> fs[i].name in named)
    && (forall name :: name in named ==> exists i :: 0 <= i < |fs| && IsNamed(fs[i], name))
    && (forall i :: 0 <= i < |fs| && fs[i].Named? && LastOne(fs, i) ==> named[fs[i].name] == fs[i].value)
  }

  predicate ChoicesHold(choices: seq<string>, fs: seq<Field>) {
    && (forall i :: 0 <= i < |fs| && fs[i].Choice? ==> fs[i].index < |choices|)
    && (forall i :: 0 <= i < |fs| && fs[i].Choice? && LastOne(fs, i) ==> choices[fs[i].index] == fs[i].value)
    && (forall k :: 0 <= k < |choices| && (forall i :: 0 <= i < |fs| ==> !IsChoice(fs[i], k)) ==> choices[k] == "")
  }

  predicate IsNamed(f: Field, name: string) { f.Named? && f.name == name }

  predicate IsChoice(f: Field, k: nat) { f.Choice? && f.index == k }

  lemma {:induction false} PadToIs(choices: seq<string>, n: nat)
    ensures var r := PadTo(choices, n);
            choices <= r && |r| == (if |choices| >= n then |choices| else n)
            && forall k :: |choices| <= k < |r| ==> r[k] == ""
    decreases n - |choices|
  {
    if |choices| < n {
      PadToIs(choices + [""], n);
    }
  }

  lemma {:induction false} LastOneGrows(fs: seq<Field>, f: Field, i: nat)
    requires i < |fs|
    ensures LastOne(fs + [f], i) <==> LastOne(fs, i) && (NameOf(f) != NameOf(fs[i]) || IndexOf(f) != IndexOf(fs[i]))
  {
    var all := fs + [f];
    assert all[|fs|] == f && forall j :: 0 <= j < |fs| ==> all[j] == fs[j];
  }

  lemma {:induction false} NamedHolds(named: map<string, string>, fs: seq<Field>, name: string, value: string)
    requires NamesHold(named, fs)
    ensures NamesHold(named[name := value], fs + [Named(name, value)])
  {
    var f := Named(name, value);
    var all := fs + [f];
    assert all[|fs|] == f && forall j :: 0 <= j < |fs| ==> all[j] == fs[j];
    forall i | 0 <= i < |all| && all[i].Named? && LastOne(all, i)
      ensures named[name := value][all[i].name] == all[i].value
    {
      if i < |fs| {
        LastOneGrows(fs, f, i);
      }
    }
    var next := named[name := value];
    forall key | key in next
      ensures exists i :: 0 <= i < |all| && IsNamed(all[i], key)
    {
      if key == name {
        assert IsNamed(all[|fs|], key);
      } else {
        var i :| 0 <= i < |fs| && IsNamed(fs[i], key);
        assert IsNamed(all[i], key);
      }
    }
  }

  lemma {:induction false} NamesStay(named: map<string, string>, fs: seq<Field>, f: Field)
    requires NamesHold(named, fs) && f.Choice?
    ensures NamesHold(named, fs + [f])
  {
    var all := fs + [f];
    assert all[|fs|] == f && forall j :: 0 <= j < |fs| ==> all[j] == fs[j];
    forall i | 0 <= i < |all| && all[i].Named? && LastOne(all, i)
      ensures named[all[i].name] == all[i].value
    {
      LastOneGrows(fs, f, i);
    }
    forall key | key in named
      ensures exists i :: 0 <= i < |all| && IsNamed(all[i], key)
    {
      var i :| 0 <= i < |fs| && IsNamed(fs[i], key);
      assert IsNamed(all[i], key);
    }
  }

  lemma {:induction false} ChoicesStay(choices: seq<string>, fs: seq<Field>, f: Field)
    requires ChoicesHold(choices, fs) && f.Named?
    ensures ChoicesHold(choices, fs + [f])
  {
    var all := fs + [f];
    assert all[|fs|] == f && forall j :: 0 <= j < |fs| ==> all[j] == fs[j];
    forall i | 0 <= i < |all| && all[i].Choice? && LastOne(all, i)
      ensures choices[all[i].index] == all[i].value
    {
      LastOneGrows(fs, f, i);
    }
    forall k | 0 <= k < |choices| && forall i :: 0 <= i < |all| ==> !IsChoice(all[i], k)
      ensures choices[k] == ""
    {
      assert forall i :: 0 <= i < |fs| ==> !IsChoice(all[i], k) && all[i] == fs[i];
    }
  }

  lemma {:induction false} ChoiceHolds(choices: seq<string>, fs: seq<Field>, index: nat, value: string)
    requires ChoicesHold(choices, fs)
    ensures ChoicesHold(PadTo(choices, index + 1)[index := value], fs + [Choice(index, value)])
  {
    PadToIs(choices, index + 1);
    hide PadTo;
    var f := Choice(index, value);
    var all, next := fs + [f], PadTo(choices, index + 1)[index := value];
    assert all[|fs|] == f && forall j :: 0 <= j < |fs| ==> all[j] == fs[j];
    forall i | 0 <= i < |all| && all[i].Choice? && LastOne(all, i)
      ensures next[all[i].index] == all[i].value
    {
      if i < |fs| {
        LastOneGrows(fs, f, i);
      }
    }
    forall k | 0 <= k < |next| && forall i :: 0 <= i < |all| ==> !IsChoice(all[i], k)
      ensures next[k] == ""
    {
      assert !IsChoice(all[|fs|], k);
      assert forall i :: 0 <= i < |fs| ==> !IsChoice(all[i], k) && all[i] == fs[i];
    }
  }

  predicate Unindexed(f: Field) { f.Named? && f.name == "choice" }

  predicate NoneUnindexed(fs: seq<Field>) { forall i :: 0 <= i < |fs| ==> !Unindexed(fs[i]) }

  lemma {:induction false} StoreHolds(f: Fields, seen: seq<Field>, fs: seq<Field>)
    requires Holds(f, seen)
    ensures var r := StoreAll(f, fs);
            (r.Some? <==> NoneUnindexed(fs)) && (r.Some? ==> Holds(r.value, seen + fs))
    decreases |fs|
  {
    hide NamesHold, ChoicesHold, PadTo;
    if fs == [] {
      assert seen + fs == seen;
    } else {
      assert fs == [fs[0]] + fs[1..];
      if Unindexed(fs[0]) {
        assert StoreAll(f, fs) == None;
      } else {
        match fs[0] {
          case Named(name, value) =>
            NamedHolds(f.named, seen, name, value);
            ChoicesStay(f.choices, seen, fs[0]);
          case Choice(index, value) =>
            NamesStay(f.named, seen, fs[0]);
            ChoiceHolds(f.choices, seen, index, value);
        }
        var g := Store(f, NameOf(fs[0]), IndexOf(fs[0]), fs[0].value).value;
        StoreHolds(g, seen + [fs[0]], fs[1..]);
        assert seen + [fs[0]] + fs[1..] == seen + fs;
        NoneTail(fs);
      }
    }
  }

  lemma {:induction false} NoneTail(fs: seq<Field>)
    requires fs != [] && !Unindexed(fs[0])
    ensures NoneUnindexed(fs) <==> NoneUnindexed(fs[1..])
  {
    if NoneUnindexed(fs[1..]) {
      assert forall i :: 0 < i < |fs| ==> fs[i] == fs[1..][i - 1];
    }
  }

  /** The choices that are reported: trailing empty ones are dropped, and only those. */
  predicate Kept(choices: seq<string>, all: seq<string>) {
    choices <= all && (forall k :: |choices| <= k < |all| ==> all[k] == "")
    && (choices != [] ==> choices[|choices| - 1] != "")
  }

  lemma {:induction false} DropEmptyKeeps(choices: seq<string>)
    ensures Kept(DropEmpty(choices), choices)
  {
    if choices != [] && choices[|choices| - 1] == "" {
      DropEmptyKeeps(choices[..|choices| - 1]);
    }
  }

  function EntryOf(fs: seq<Field>): string { "\n" + FieldLines(fs) + "    " }

  /** Whatever fields are printed, every name is reported with the value assigned last, and
      so is every choice, unassigned ones empty, trailing empty ones dropped; a choice
      without an index is refused. */
  lemma {:induction false} EntryMeans(fs: seq<Field>)
    requires GoodFields(fs)
    ensures var r := FieldValues(EntryOf(fs));
            (r.Some? <==> NoneUnindexed(fs))
            && (r.Some? ==> exists all: seq<string> :: Holds(Fields(r.value.named, all), ReadAll(fs)) && Kept(r.value.choices, all))
  {
    hide FieldLines, GoodFields, StoreAll, Collect, DropEmpty, At, Holds, NoneUnindexed;
    var t := EntryOf(fs);
    AtConcat("\n", FieldLines(fs), "    ");
    CollectFields(t, 1, fs, Fields(map[], []));
    HoldsNothing();
    StoreHolds(Fields(map[], []), [], ReadAll(fs));
    ReadUnindexed(fs);
    assert [] + ReadAll(fs) == ReadAll(fs);
    var f := StoreAll(Fields(map[], []), ReadAll(fs));
    if f.Some? {
      DropEmptyKeeps(f.value.choices);
      assert f.value == Fields(f.value.named, f.value.choices);
    }
  }

  lemma {:induction false} HoldsNothing()
    ensures Holds(Fields(map[], []), [])
  {
  }

  lemma {:induction false} ReadUnindexed(fs: seq<Field>)
    ensures NoneUnindexed(ReadAll(fs)) <==> NoneUnindexed(fs)
  {
    hide AsLatin;
    if fs != [] {
      ReadUnindexed(fs[1..]);
      ReadKeys(fs);
      var rs := ReadAll(fs);
      assert Unindexed(rs[0]) <==> Unindexed(fs[0]);
      if !Unindexed(fs[0]) {
        NoneTail(fs);
        NoneTail(rs);
      }
    }
  }

  /** Only ".name", with a letter or an underscore first, is read as a field. */
  lemma {:induction false} FieldNeedsName(t: string, p: nat)
    requires p <= |t| && HeadAt(t, p).Some?
    ensures p + 1 < |t| && t[p] == '.' && (t[p + 1] == '_' || 'a' <= t[p + 1] <= 'z' || 'A' <= t[p + 1] <= 'Z')
    ensures HeadAt(t, p).value.name != "" && HeadAt(t, p).value.name[0] == t[p + 1]
    ensures forall i :: 0 <= i < |HeadAt(t, p).value.name| ==> NamePart(HeadAt(t, p).value.name[i])
  {
    IdentEndAll(t, p + 1);
    hide Py.PySpacesEnd, DigitsEnd;
  }

  predicate NamePart(c: char) { c == '_' || 'a' <= c <= 'z' || 'A' <= c <= 'Z' || '0' <= c <= '9' }

  lemma {:induction false} IdentEndAll(t: string, p: nat)
    requires p <= |t|
    ensures forall i :: p <= i < IdentEnd(t, p) ==> NamePart(t[i])
    decreases |t| - p
  {
    if p < |t| && IdentChar(t[p]) {
      IdentEndAll(t, p + 1);
    }
  }

  // ---- incomplete entries ----

  /** The cases reported come from the entries that have a source, an id, a question and an
      answer, each with the index of its entry and its fields; in order, none left out. */
  lemma {:induction false} CasesKeepIndex(entries: seq<string>, idx: nat)
    ensures var r := CasesOf(entries, idx);
            (r.Some? <==> forall i :: 0 <= i < |entries| ==> FieldValues(entries[i]).Some?)
            && (r.Some? ==>
                  (forall k :: 0 <= k < |r.value| ==> FromEntry(r.value[k], entries, idx))
                  && (forall k, l :: 0 <= k < l < |r.value| ==> r.value[k].index < r.value[l].index)
                  && (forall i :: 0 <= i < |entries| && HasAll(entries[i]) ==> Indexed(r.value, idx + i)))
    decreases |entries|
  {
    hide FieldValues, FromEntry, HasAll, CaseOf;
    if entries != [] {
      var tail := entries[1..];
      var rest := CasesOf(tail, idx + 1);
      CasesKeepIndex(tail, idx + 1);
      assert forall i :: 0 < i < |entries| ==> entries[i] == tail[i - 1];
      if rest.Some? && FieldValues(entries[0]).Some? {
        var first := CaseOf(idx, FieldValues(entries[0]).value);
        var r := first + rest.value;
        forall k | 0 <= k < |rest.value|
          ensures FromEntry(rest.value[k], entries, idx) && rest.value[k].index > idx
        {
          FromLater(rest.value[k], entries, idx);
        }
        FirstCase(entries, idx);
        forall i | 0 <= i < |entries| && HasAll(entries[i])
          ensures Indexed(r, idx + i)
        {
          if i == 0 {
            assert r[0] == first[0];
          } else {
            assert HasAll(tail[i - 1]) && Indexed(rest.value, idx + 1 + (i - 1));
            var k :| 0 <= k < |rest.value| && rest.value[k].index == idx + 1 + (i - 1);
            assert r[|first| + k] == rest.value[k];
          }
        }
      }
    }
  }

  predicate Indexed(cs: seq<Case>, index: nat) { exists k :: 0 <= k < |cs| && cs[k].index == index }

  predicate HasAll(entry: string) {
    var f := FieldValues(entry);
    f.Some? && "source" in f.value.named && "id" in f.value.named && "question" in f.value.named && "answer" in f.value.named
  }

  function NamedOr(f: Fields, name: string): string { if name in f.named then f.named[name] else "" }

  predicate FromEntry(c: Case, entries: seq<string>, idx: nat) {
    && idx <= c.index < idx + |entries|
    && HasAll(entries[c.index - idx])
    && var f := FieldValues(entries[c.index - idx]).value;
       c.source == NamedOr(f, "source") && c.id == NamedOr(f, "id")
       && c.domain == NamedOr(f, "domain") && c.title == NamedOr(f, "title")
       && c.question == NamedOr(f, "question") && c.answer == NamedOr(f, "answer")
       && c.choices == NonEmpty(f.choices)
  }

  lemma {:induction false} FromLater(c: Case, entries: seq<string>, idx: nat)
    requires entries != [] && FromEntry(c, entries[1..], idx + 1)
    ensures FromEntry(c, entries, idx) && c.index > idx
  {
    hide FieldValues, NonEmpty, HasAll;
    assert entries[1..][c.index - idx - 1] == entries[c.index - idx];
  }

  lemma {:induction false} FirstCase(entries: seq<string>, idx: nat)
    requires entries != [] && FieldValues(entries[0]).Some?
    ensures var first := CaseOf(idx, FieldValues(entries[0]).value);
            |first| == (if HasAll(entries[0]) then 1 else 0)
            && forall c :: c in first ==> c.index == idx && FromEntry(c, entries, idx)
  {
    hide FieldValues, NonEmpty;
  }
}

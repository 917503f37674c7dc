/** Hard-link accounting: the inventory walks a tree twice and counts each inode once,
    cleanup walks it once with a set of inodes seen. A walk is the list of what stat
    finds for its names, in the order in which the directories happen to be read. */
module LayoutStats {
  type Inode = (int, int)

  /** What stat finds for a name of the walk. */
  datatype Found = Gone | Special | Regular(inode: Inode, blocks: nat)

  datatype Totals = Totals(bytes: nat, files: nat)

  datatype Stats = Stats(raw: Totals, unique: Totals)

  /** What a path is: nothing, a file with its own blocks, or a directory to walk. */
  datatype Kind = Missing | File(blocks: nat) | Directory

  function FileTotals(blocks: nat): Totals { Totals(blocks * 512, 1) }

  function Plus(t: Totals, f: Found): Totals { if f.Regular? then Totals(t.bytes + f.blocks * 512, t.files + 1) else t }

  function Sum(walk: seq<Found>): Totals {
    if walk == [] then Totals(0, 0) else Plus(Sum(walk[..|walk| - 1]), walk[|walk| - 1])
  }

  function Inodes(walk: seq<Found>): set<Inode> { set f | f in walk && f.Regular? :: f.inode }

  /** The first entry of every inode of the walk. */
  function Firsts(walk: seq<Found>): seq<Found> {
    if walk == [] then []
    else
      var before, last := walk[..|walk| - 1], walk[|walk| - 1];
      if last.Regular? && last.inode !in Inodes(before) then Firsts(before) + [last] else Firsts(before)
  }

  // ---- the two walkers ----

  lemma {:induction false} InodesGrow(walk: seq<Found>, i: nat)
    requires i < |walk|
    ensures Inodes(walk[..i + 1]) == Inodes(walk[..i]) + (if walk[i].Regular? then {walk[i].inode} else {})
  {
    var before, upto := walk[..i], walk[..i + 1];
    assert upto == before + [walk[i]];
    forall n ensures n in Inodes(upto) <==> n in Inodes(before) || (walk[i].Regular? && n == walk[i].inode) {
      if n in Inodes(upto) {
        var f :| f in upto && f.Regular? && f.inode == n;
        assert f in before || f == walk[i];
      }
    }
  }

  lemma {:induction false} SumAppend(walk: seq<Found>, f: Found)
    ensures Sum(walk + [f]) == Plus(Sum(walk), f)
  {
    assert (walk + [f])[..|walk|] == walk;
  }

  lemma {:induction false} FirstsGrow(walk: seq<Found>, i: nat)
    requires i < |walk|
    ensures Firsts(walk[..i + 1]) ==
      Firsts(walk[..i]) + (if walk[i].Regular? && walk[i].inode !in Inodes(walk[..i]) then [walk[i]] else [])
    ensures Sum(Firsts(walk[..i + 1])) ==
      if walk[i].Regular? && walk[i].inode !in Inodes(walk[..i]) then Plus(Sum(Firsts(walk[..i])), walk[i]) else Sum(Firsts(walk[..i]))
  {
    hide Inodes, Sum;
    assert walk[..i + 1][..i] == walk[..i];
    SumAppend(Firsts(walk[..i]), walk[i]);
  }

  /** The one pass of the cleanup. */
  method CleanupWalk(walk: seq<Found>) returns (t: Totals)
    ensures t == Sum(Firsts(walk))
  {
    hide Sum, Firsts, Inodes;
    t := Totals(0, 0);
    var seen: set<Inode> := {};
    Empty(walk);
    for i := 0 to |walk|
      invariant seen == Inodes(walk[..i]) && t == Sum(Firsts(walk[..i]))
    {
      InodesGrow(walk, i);
      FirstsGrow(walk, i);
      if !walk[i].Regular? || walk[i].inode in seen {
        continue;
      }
      seen := seen + {walk[i].inode};
      t := Totals(t.bytes + walk[i].blocks * 512, t.files + 1);
    }
    assert walk[..|walk|] == walk;
  }

  lemma {:induction false} Empty(walk: seq<Found>)
    ensures walk[..0] == [] && Inodes(walk[..0]) == {} && Firsts(walk[..0]) == [] && Sum([]) == Totals(0, 0)
    ensures Sum(walk[..0]) == Totals(0, 0)
  {
  }

  /** The entries of a list whose inode is in the set. */
  function Within(fs: seq<Found>, inodes: set<Inode>): seq<Found> {
    if fs == [] then []
    else
      var last := fs[|fs| - 1];
      Within(fs[..|fs| - 1], inodes) + (if last.Regular? && last.inode in inodes then [last] else [])
  }

  /** The two passes of the inventory: the second walk may differ from the first. */
  method InventoryWalk(walk: seq<Found>, again: seq<Found>) returns (s: Stats)
    ensures s.raw == Sum(walk)
    ensures s.unique == Sum(Within(Firsts(again), Inodes(walk)))
  {
    hide Sum, Firsts, Inodes, Within;
    var raw, unique := Totals(0, 0), Totals(0, 0);
    var inodes: set<Inode> := {};
    Empty(walk);
    for i := 0 to |walk|
      invariant inodes == Inodes(walk[..i]) && raw == Sum(walk[..i])
    {
      InodesGrow(walk, i);
      assert walk[..i + 1] == walk[..i] + [walk[i]];
      SumAppend(walk[..i], walk[i]);
      if !walk[i].Regular? {
        continue;
      }
      raw := Totals(raw.bytes + walk[i].blocks * 512, raw.files + 1);
      if walk[i].inode !in inodes {
        inodes := inodes + {walk[i].inode};
      }
    }
    assert walk[..|walk|] == walk;
    ghost var all := inodes;
    Empty(again);
    NoneWithin(all);
    for i := 0 to |again|
      invariant inodes == all - Inodes(again[..i]) && unique == Sum(Within(Firsts(again[..i]), all))
    {
      InodesGrow(again, i);
      FirstsGrow(again, i);
      WithinGrow(Firsts(again[..i]), again[i], all);
      if !again[i].Regular? {
        continue;
      }
      if again[i].inode in inodes {
        unique := Totals(unique.bytes + again[i].blocks * 512, unique.files + 1);
        inodes := inodes - {again[i].inode};
      }
    }
    assert again[..|again|] == again;
    s := Stats(raw, unique);
  }

  lemma {:induction false} NoneWithin(inodes: set<Inode>)
    ensures Within([], inodes) == []
  {
  }

  lemma {:induction false} WithinGrow(fs: seq<Found>, f: Found, inodes: set<Inode>)
    ensures fs + [] == fs
    ensures Sum(Within(fs + [f], inodes)) ==
      if f.Regular? && f.inode in inodes then Plus(Sum(Within(fs, inodes)), f) else Sum(Within(fs, inodes))
  {
    assert (fs + [f])[..|fs|] == fs;
    SumAppend(Within(fs, inodes), f);
    hide Sum;
    assert Within(fs, inodes) + [] == Within(fs, inodes);
  }

  // ---- the totals, said of the walk ----

  /** The blocks of the regular files among the first `n` entries, each name counted. */
  function AllBlocks(walk: seq<Found>, n: nat): nat
    requires n <= |walk|
  {
    if n == 0 then 0 else AllBlocks(walk, n - 1) + if walk[n - 1].Regular? then walk[n - 1].blocks else 0
  }

  function Regulars(walk: seq<Found>): set<nat> { set i: nat | i < |walk| && walk[i].Regular? }

  /** The first name of an inode. */
  predicate FirstAt(walk: seq<Found>, i: nat)
    requires i < |walk|
  {
    walk[i].Regular? && forall j :: 0 <= j < i ==> !(walk[j].Regular? && walk[j].inode == walk[i].inode)
  }

  /** The blocks among the first `n` entries, each inode counted at its first name. */
  function FirstBlocks(walk: seq<Found>, n: nat): nat
    requires n <= |walk|
  {
    if n == 0 then 0 else FirstBlocks(walk, n - 1) + if FirstAt(walk, n - 1) then walk[n - 1].blocks else 0
  }

  lemma {:induction false} AllBlocksPart(walk: seq<Found>, m: nat, n: nat)
    requires n <= m <= |walk|
    ensures AllBlocks(walk[..m], n) == AllBlocks(walk, n)
  {
    if n > 0 {
      AllBlocksPart(walk, m, n - 1);
    }
  }

  lemma {:induction false} FirstBlocksPart(walk: seq<Found>, m: nat, n: nat)
    requires n <= m <= |walk|
    ensures FirstBlocks(walk[..m], n) == FirstBlocks(walk, n)
  {
    if n > 0 {
      FirstBlocksPart(walk, m, n - 1);
    }
  }

  /** Counting every name: 512 bytes for every block, one file for every regular entry. */
  lemma {:induction false} SumAccount(walk: seq<Found>)
    ensures Sum(walk) == Totals(512 * AllBlocks(walk, |walk|), |Regulars(walk)|)
  {
    if walk == [] {
      assert Regulars(walk) == {};
    } else {
      var n := |walk| - 1;
      SumAccount(walk[..n]);
      AllBlocksPart(walk, n, n);
      var front := Regulars(walk[..n]);
      assert Regulars(walk) == if walk[n].Regular? then front + {n} else front;
    }
  }

  /** Counting every inode once: the blocks of its first name, one file for every inode. */
  lemma {:induction false} FirstsAccount(walk: seq<Found>)
    ensures Sum(Firsts(walk)) == Totals(512 * FirstBlocks(walk, |walk|), |Inodes(walk)|)
  {
    if walk == [] {
      assert Inodes(walk) == {};
    } else {
      var n := |walk| - 1;
      FirstsAccount(walk[..n]);
      FirstBlocksPart(walk, n, n);
      FirstsGrow(walk, n);
      InodesGrow(walk, n);
      assert walk[..n + 1] == walk;
      FirstAtIs(walk, n);
    }
  }

  lemma {:induction false} FirstAtIs(walk: seq<Found>, n: nat)
    requires n < |walk|
    ensures FirstAt(walk, n) <==> walk[n].Regular? && walk[n].inode !in Inodes(walk[..n])
  {
    var before := walk[..n];
    if walk[n].Regular? {
      if walk[n].inode in Inodes(before) {
        var f :| f in before && f.Regular? && f.inode == walk[n].inode;
        var j :| 0 <= j < n && before[j] == f;
        assert walk[j] == f;
      } else {
        forall j | 0 <= j < n
          ensures !(walk[j].Regular? && walk[j].inode == walk[n].inode)
        {
          assert before[j] == walk[j];
        }
      }
    }
  }

  /** The cleanup's account of a path. */
  function Account(kind: Kind, walk: seq<Found>): Totals {
    match kind
    case Missing => Totals(0, 0)
    case File(blocks) => FileTotals(blocks)
    case Directory => Sum(Firsts(walk))
  }

  /** tree_stats of the cleanup. */
  method CleanupStats(kind: Kind, walk: seq<Found>) returns (t: Totals)
    ensures t == Account(kind, walk)
    ensures kind.Missing? ==> t == Totals(0, 0)
    ensures kind.File? ==> t == Totals(512 * kind.blocks, 1)
    ensures kind.Directory? ==> t == Totals(512 * FirstBlocks(walk, |walk|), |Inodes(walk)|)
  {
    FirstsAccount(walk);
    match kind
    case File(blocks) => t := Totals(blocks * 512, 1);
    case Missing => t := Totals(0, 0);
    case Directory => t := CleanupWalk(walk);
  }

  /** tree_stats of the inventory. */
  method InventoryStats(kind: Kind, walk: seq<Found>, again: seq<Found>) returns (s: Stats)
    ensures kind.Missing? ==> s == Stats(Totals(0, 0), Totals(0, 0))
    ensures kind.File? ==> s == Stats(Totals(512 * kind.blocks, 1), Totals(512 * kind.blocks, 1))
    ensures kind.Directory? ==> s.raw == Totals(512 * AllBlocks(walk, |walk|), |Regulars(walk)|)
    ensures kind.Directory? ==> s.raw == Sum(walk) && s.unique == Sum(Within(Firsts(again), Inodes(walk)))
  {
    SumAccount(walk);
    match kind
    case File(blocks) => s := Stats(Totals(blocks * 512, 1), Totals(blocks * 512, 1));
    case Missing => s := Stats(Totals(0, 0), Totals(0, 0));
    case Directory => s := InventoryWalk(walk, again);
  }

  // ---- the two accounts agree ----

  lemma {:induction false} FirstsAre(walk: seq<Found>)
    ensures forall f :: f in Firsts(walk) ==> f in walk && f.Regular?
    ensures Inodes(Firsts(walk)) == Inodes(walk)
    ensures DistinctInodes(Firsts(walk))
  {
    if walk != [] {
      var n := |walk| - 1;
      FirstsAre(walk[..n]);
      InodesGrow(walk, n);
      assert walk[..n + 1] == walk;
      if walk[n].Regular? && walk[n].inode !in Inodes(walk[..n]) {
        InodesGrow(Firsts(walk), |Firsts(walk)| - 1);
        assert Firsts(walk)[..|Firsts(walk)| - 1] == Firsts(walk[..n]);
        assert Firsts(walk)[..|Firsts(walk)|] == Firsts(walk);
      }
    }
  }

  predicate DistinctInodes(fs: seq<Found>) {
    fs == [] || (fs[|fs| - 1].Regular? && fs[|fs| - 1].inode !in Inodes(fs[..|fs| - 1]) && DistinctInodes(fs[..|fs| - 1]))
  }

  lemma {:induction false} WithinAll(fs: seq<Found>, inodes: set<Inode>)
    requires forall f :: f in fs ==> f.Regular? && f.inode in inodes
    ensures Within(fs, inodes) == fs
  {
    if fs != [] {
      WithinAll(fs[..|fs| - 1], inodes);
    }
  }

  /** Each inode has one size, in one walk and across both: nothing changed in between. */
  predicate Unchanged(a: seq<Found>, b: seq<Found>) {
    Inodes(a) == Inodes(b) &&
    forall f, g :: f in a + b && g in a + b && f.Regular? && g.Regular? && f.inode == g.inode ==> f.blocks == g.blocks
  }

  function Without(fs: seq<Found>, k: nat): seq<Found>
    requires k < |fs|
  {
    fs[..k] + fs[k + 1..]
  }

  lemma {:induction false} SumWithout(fs: seq<Found>, k: nat)
    requires k < |fs|
    ensures Sum(fs) == Plus(Sum(Without(fs, k)), fs[k])
  {
    var n := |fs| - 1;
    if k == n {
      assert Without(fs, k) == fs[..n];
    } else {
      SumWithout(fs[..n], k);
      assert Without(fs, k) == Without(fs[..n], k) + [fs[n]];
      SumAppend(Without(fs[..n], k), fs[n]);
    }
  }

  lemma {:induction false} InodeIn(fs: seq<Found>, k: nat)
    requires k < |fs| && fs[k].Regular?
    ensures fs[k].inode in Inodes(fs)
  {
  }

  lemma {:induction false} DistinctWithout(fs: seq<Found>, k: nat)
    requires k < |fs| && DistinctInodes(fs)
    ensures DistinctInodes(Without(fs, k)) && fs[k].Regular?
    ensures Inodes(Without(fs, k)) == Inodes(fs) - {fs[k].inode}
  {
    hide Inodes;
    var n := |fs| - 1;
    InodesGrow(fs, n);
    assert fs[..n + 1] == fs;
    if k == n {
      assert Without(fs, k) == fs[..n];
    } else {
      var rest := Without(fs[..n], k);
      DistinctWithout(fs[..n], k);
      assert Without(fs, k) == rest + [fs[n]];
      InodesGrow(rest + [fs[n]], n - 1);
      assert (rest + [fs[n]])[..n - 1] == rest && (rest + [fs[n]])[..n] == rest + [fs[n]];
      InodeIn(fs[..n], k);
    }
  }

  /** Lists with one entry per inode, the same inodes and the same sizes have the same
      totals in any order. */
  lemma {:induction false} SumOrder(a: seq<Found>, b: seq<Found>)
    requires DistinctInodes(a) && DistinctInodes(b) && Inodes(a) == Inodes(b)
    requires forall f, g :: f in a && g in b && f.Regular? && g.Regular? && f.inode == g.inode ==> f.blocks == g.blocks
    ensures Sum(a) == Sum(b)
  {
    if a == [] {
      assert Inodes(a) == {};
      NoInodes(b);
    } else {
      var n := |a| - 1;
      InodesGrow(a, n);
      assert a[..n + 1] == a;
      assert a[n].inode in Inodes(b);
      var g :| g in b && g.Regular? && g.inode == a[n].inode;
      var k :| 0 <= k < |b| && b[k] == g;
      DistinctWithout(b, k);
      SumWithout(b, k);
      forall f | f in Without(b, k) ensures f in b { }
      SumOrder(a[..n], Without(b, k));
    }
  }

  lemma {:induction false} NoInodes(b: seq<Found>)
    requires DistinctInodes(b)
    ensures b == [] <==> Inodes(b) == {}
  {
    if b != [] {
      assert b[|b| - 1].inode in Inodes(b);
    }
  }

  /** However the directories are listed, while no file changes the unique totals the
      inventory pins are those the cleanup counts. */
  lemma {:induction false} AccountsAgree(walk: seq<Found>, again: seq<Found>, later: seq<Found>)
    requires Unchanged(again, later) && Inodes(again) <= Inodes(walk)
    ensures Sum(Within(Firsts(again), Inodes(walk))) == Sum(Firsts(later))
  {
    FirstsAre(again);
    FirstsAre(later);
    forall f | f in Firsts(again) ensures f.Regular? && f.inode in Inodes(walk) { assert f.inode in Inodes(Firsts(again)); }
    WithinAll(Firsts(again), Inodes(walk));
    SumOrder(Firsts(again), Firsts(later));
  }

  /** Counting each inode once never gives more than counting every name. */
  lemma {:induction false} UniqueAtMostRaw(walk: seq<Found>)
    ensures Sum(Firsts(walk)).bytes <= Sum(walk).bytes && Sum(Firsts(walk)).files <= Sum(walk).files
  {
    hide Inodes;
    if walk != [] {
      var n := |walk| - 1;
      UniqueAtMostRaw(walk[..n]);
      SumAppend(Firsts(walk[..n]), walk[n]);
    }
  }

  // ---- manifest and check ----

  /** The size and count check of validate_entry, on a path that exists. */
  method CheckEntry(pinned: Totals, kind: Kind, walk: seq<Found>) returns (errors: seq<string>)
    ensures errors == [] <==> pinned == Account(kind, walk)
    ensures "size changed" in errors <==> pinned.bytes != Account(kind, walk).bytes
    ensures "file count changed" in errors <==> pinned.files != Account(kind, walk).files
  {
    hide Account;
    errors := [];
    var actual := CleanupStats(kind, walk);
    if actual.bytes != pinned.bytes {
      errors := errors + ["size changed"];
    }
    if actual.files != pinned.files {
      errors := errors + ["file count changed"];
    }
  }

  /** Planned by the inventory, checked later on an unchanged tree: no error. */
  method PlanThenCheck(kind: Kind, walk: seq<Found>, again: seq<Found>, later: seq<Found>)
    returns (s: Stats, errors: seq<string>)
    requires Unchanged(walk, again) && Unchanged(again, later)
    ensures errors == []
    ensures s.unique.bytes <= s.raw.bytes && s.unique.files <= s.raw.files
  {
    hide Sum, Firsts;
    s := InventoryStats(kind, walk, again);
    AccountsAgree(walk, again, later);
    UnchangedBack(walk, again);
    AccountsAgree(walk, again, walk);
    UniqueAtMostRaw(walk);
    errors := CheckEntry(s.unique, kind, later);
  }

  lemma {:induction false} UnchangedBack(a: seq<Found>, b: seq<Found>)
    requires Unchanged(a, b)
    ensures Unchanged(b, a)
  {
    forall f | f in b + a ensures f in a + b { }
  }
}

/** The managed block of an SSH configuration file: replacing it keeps everything
    around it, and only the last block written matters. */
module ManagedBlock {
  type Text = seq<char>

  const BEGIN: Text := "# BEGIN DS4 SPARKNETWORK"
  const END: Text := "# END DS4 SPARKNETWORK"

  datatype Result = Ok(text: Text) | RouteFailure | ValueError

  // ---- substrings as Python finds and counts them ----

  predicate OccursAt(s: Text, m: Text, i: nat) { i + |m| <= |s| && forall k :: 0 <= k < |m| ==> s[i + k] == m[k] }

  /** str.find from a position: the first occurrence, or one past the end. */
  function Find(s: Text, m: Text, from: nat): nat
    decreases |s| - from
  {
    if from > |s| || OccursAt(s, m, from) then from else Find(s, m, from + 1)
  }

  /** str.count: occurrences that do not overlap, left to right. */
  function Count(s: Text, m: Text, from: nat): nat
    requires |m| > 0
    decreases |s| - from
  {
    FindIs(s, m, from);
    var i := Find(s, m, from);
    if i > |s| then 0 else 1 + Count(s, m, i + |m|)
  }

  lemma {:induction false} FindIs(s: Text, m: Text, from: nat)
    ensures var i := Find(s, m, from);
      i >= from && (i <= |s| ==> OccursAt(s, m, i)) && forall j :: from <= j < i ==> !OccursAt(s, m, j)
    decreases |s| - from
  {
    if !(from > |s| || OccursAt(s, m, from)) {
      FindIs(s, m, from + 1);
    }
  }

  /** Position after the carriage returns and line feeds that start at i. */
  function SkipBreaks(s: Text, i: nat): (j: nat)
    requires i <= |s|
    ensures i <= j <= |s|
    decreases |s| - i
  {
    if i < |s| && s[i] in "\r\n" then SkipBreaks(s, i + 1) else i
  }

  function Stripped(s: Text): Text { s[SkipBreaks(s, 0)..] }

  // ---- replace_managed_block ----

  function Separator(original: Text): Text { if original == "" || original[0] == '\n' then "" else "\n" }

  function Replace(original: Text, block: Text): Result {
    var begins, ends := Count(original, BEGIN, 0), Count(original, END, 0);
    if begins != ends || begins > 1 then RouteFailure
    else if begins == 0 then Ok(block + Separator(original) + original)
    else
      FindIs(original, BEGIN, 0);
      var begin := Find(original, BEGIN, 0);
      FindIs(original, END, begin);
      var end := Find(original, END, begin);
      if begin > |original| || end > |original| then ValueError
      else Ok(original[..begin] + block + original[SkipBreaks(original, end + |END|)..])
  }

  method ReplaceManagedBlock(original: Text, block: Text) returns (r: Result)
    ensures r == Replace(original, block)
  {
    hide Count, Find;
    var begins, ends := Count(original, BEGIN, 0), Count(original, END, 0);
    if begins != ends || begins > 1 {
      return RouteFailure;
    }
    if begins == 0 {
      return Ok(block + Separator(original) + original);
    }
    FindIs(original, BEGIN, 0);
    var begin := Find(original, BEGIN, 0);
    FindIs(original, END, begin);
    var found := Find(original, END, begin);
    if begin > |original| || found > |original| {
      return ValueError;
    }
    var end := found + |END|;
    while end < |original| && original[end] in "\r\n"
      invariant found + |END| <= end <= |original|
      invariant SkipBreaks(original, found + |END|) == SkipBreaks(original, end)
    {
      end := end + 1;
    }
    r := Ok(original[..begin] + block + original[end..]);
  }

  // ---- markers do not overlap and do not straddle ----

  predicate IsMarker(m: Text) {
    |m| > 0 && m[0] == '#' && forall k :: 0 < k < |m| ==> m[k] != '#' && m[k] !in "\r\n"
  }

  lemma {:induction false} BothMarkers()
    ensures BEGIN == "# BEGIN DS4 SPARKNETWORK" && END == "# END DS4 SPARKNETWORK"
    ensures IsMarker(BEGIN) && IsMarker(END)
  {
  }

  ghost predicate Sole(s: Text, m: Text, i: nat) { OccursAt(s, m, i) && forall j :: OccursAt(s, m, j) ==> j == i }

  ghost predicate None(s: Text, m: Text) { forall j :: !OccursAt(s, m, j) }

  lemma {:induction false} CountNone(s: Text, m: Text, from: nat)
    requires |m| > 0
    ensures Count(s, m, from) == 0 <==> forall j :: j >= from ==> !OccursAt(s, m, j)
  {
    FindIs(s, m, from);
  }

  lemma {:induction false} CharAt(s: Text, m: Text, i: nat, k: nat)
    ensures OccursAt(s, m, i) && k < |m| ==> i + k < |s| && s[i + k] == m[k]
  {
  }

  lemma {:induction false} OccursApart(s: Text, m: Text, i: nat, j: nat)
    requires IsMarker(m) && OccursAt(s, m, i) && OccursAt(s, m, j) && i < j
    ensures i + |m| <= j
  {
    CharAt(s, m, j, 0);
    CharAt(s, m, i, j - i);
  }

  /** The count is one exactly when there is a single occurrence, which find reports. */
  lemma {:induction false} CountOne(s: Text, m: Text)
    requires IsMarker(m)
    ensures Count(s, m, 0) == 1 <==> Sole(s, m, Find(s, m, 0))
    ensures forall i :: Sole(s, m, i) ==> Find(s, m, 0) == i
  {
    hide OccursAt, Find;
    FindIs(s, m, 0);
    var i := Find(s, m, 0);
    if i <= |s| {
      CountNone(s, m, i + |m|);
      forall j: nat | OccursAt(s, m, j) && j != i ensures j >= i + |m| { OccursApart(s, m, i, j); }
      if Sole(s, m, i) {
        assert Count(s, m, i + |m|) == 0;
      }
    } else {
      BeyondEnd(s, m, i);
    }
    forall k | Sole(s, m, k) ensures i == k { SoleWithin(s, m, k); }
  }

  lemma {:induction false} BeyondEnd(s: Text, m: Text, i: nat)
    requires i > |s|
    ensures !OccursAt(s, m, i)
  {
  }

  lemma {:induction false} SoleWithin(s: Text, m: Text, i: nat)
    requires Sole(s, m, i)
    ensures Find(s, m, 0) == i
  {
    FindIs(s, m, 0);
  }

  /** Where the pieces meet no marker can lie across. */
  predicate Seam(a: Text, b: Text) {
    a == "" || b == "" || b[0] in "#\r\n" || a[|a| - 1] in "\r\n"
  }

  lemma {:induction false} NoStraddle(a: Text, b: Text, m: Text, i: nat)
    requires IsMarker(m) && Seam(a, b) && OccursAt(a + b, m, i) && i < |a|
    ensures i + |m| <= |a|
  {
    var s := a + b;
    if b != "" && i + |m| > |a| {
      assert s[|a|] == b[0] && s[|a| - 1] == a[|a| - 1];
      CharAt(s, m, i, |a| - 1 - i);
      CharAt(s, m, i, |a| - i);
    }
  }

  lemma {:induction false} OccursJoined(a: Text, b: Text, m: Text, i: nat)
    requires IsMarker(m) && Seam(a, b)
    ensures OccursAt(a + b, m, i) <==> OccursAt(a, m, i) || (i >= |a| && OccursAt(b, m, i - |a|))
  {
    var s := a + b;
    if OccursAt(s, m, i) {
      if i >= |a| {
        forall k | 0 <= k < |m| ensures b[i - |a| + k] == m[k] { assert s[i + k] == m[k]; }
      } else {
        NoStraddle(a, b, m, i);
        forall k | 0 <= k < |m| ensures a[i + k] == m[k] { assert s[i + k] == m[k]; }
      }
    }
  }

  lemma {:induction false} NoneJoined(a: Text, b: Text, m: Text)
    requires IsMarker(m) && Seam(a, b)
    ensures None(a + b, m) <==> None(a, m) && None(b, m)
  {
    hide OccursAt, IsMarker, Seam;
    forall i: nat ensures OccursAt(a + b, m, i) <==> OccursAt(a, m, i) || (i >= |a| && OccursAt(b, m, i - |a|)) {
      OccursJoined(a, b, m, i);
    }
    if None(a + b, m) {
      forall j: nat ensures !OccursAt(b, m, j) { assert !OccursAt(a + b, m, |a| + j); assert |a| + j - |a| == j; }
    }
  }

  lemma {:induction false} SoleRight(a: Text, b: Text, m: Text, i: nat)
    requires IsMarker(m) && Seam(a, b) && None(a, m) && Sole(b, m, i)
    ensures Sole(a + b, m, |a| + i)
  {
    hide OccursAt, IsMarker, Seam;
    forall j: nat ensures OccursAt(a + b, m, j) <==> OccursAt(a, m, j) || (j >= |a| && OccursAt(b, m, j - |a|)) {
      OccursJoined(a, b, m, j);
    }
    assert |a| + i - |a| == i;
  }

  lemma {:induction false} SoleLeft(a: Text, b: Text, m: Text, i: nat)
    requires IsMarker(m) && Seam(a, b) && Sole(a, m, i) && None(b, m)
    ensures Sole(a + b, m, i)
  {
    hide OccursAt, IsMarker, Seam;
    forall j: nat ensures OccursAt(a + b, m, j) <==> OccursAt(a, m, j) || (j >= |a| && OccursAt(b, m, j - |a|)) {
      OccursJoined(a, b, m, j);
    }
  }

  // ---- files that hold one ordered pair ----

  ghost predicate Managed(s: Text, b: nat, e: nat) { Sole(s, BEGIN, b) && Sole(s, END, e) && b < e }

  /** What the installer writes: begins with BEGIN, ends with END and a line feed,
      holds no other marker. */
  ghost predicate GoodBlock(block: Text) {
    |block| >= |BEGIN| + |END| + 1 && block[|block| - 1] == '\n' &&
    Sole(block, BEGIN, 0) && Sole(block, END, |block| - |END| - 1)
  }

  ghost predicate Unmarked(s: Text) { None(s, BEGIN) && None(s, END) }

  /** A block between unmarked text makes a file with one ordered pair. */
  lemma {:induction false} Inserted(pre: Text, block: Text, post: Text)
    requires Unmarked(pre) && Unmarked(post) && GoodBlock(block)
    ensures Managed(pre + block + post, |pre|, |pre| + |block| - |END| - 1)
  {
    BothMarkers();
    BlockSeams(pre, block, post);
    hide OccursAt, IsMarker, Seam, Sole, None;
    SoleRight(pre, block, BEGIN, 0);
    SoleRight(pre, block, END, |block| - |END| - 1);
    SoleLeft(pre + block, post, BEGIN, |pre|);
    SoleLeft(pre + block, post, END, |pre| + |block| - |END| - 1);
  }

  lemma {:induction false} BlockSeams(pre: Text, block: Text, post: Text)
    requires GoodBlock(block)
    ensures Seam(pre, block) && Seam(pre + block, post)
  {
    assert block[0 + 0] == BEGIN[0];
  }

  lemma {:induction false} NoneInside(s: Text, m: Text, lo: nat, hi: nat)
    requires lo <= hi <= |s|
    requires forall j :: lo <= j && j + |m| <= hi ==> !OccursAt(s, m, j)
    ensures None(s[lo..hi], m)
  {
    forall j: nat ensures !OccursAt(s[lo..hi], m, j) {
      if OccursAt(s[lo..hi], m, j) {
        forall k | 0 <= k < |m| ensures s[lo + j + k] == m[k] { assert s[lo..hi][j + k] == m[k]; }
        assert OccursAt(s, m, lo + j);
      }
    }
  }

  lemma {:induction false} AroundUnmarked(s: Text, b: nat, e: nat)
    requires Managed(s, b, e)
    ensures e + |END| <= |s|
    ensures Unmarked(s[..b])
    ensures forall k :: e + |END| <= k <= |s| ==> Unmarked(s[k..])
  {
    assert e + |END| <= |s|;
    hide OccursAt;
    NoneInside(s, BEGIN, 0, b);
    NoneInside(s, END, 0, b);
    assert s[0..b] == s[..b];
    forall k | e + |END| <= k <= |s| ensures Unmarked(s[k..]) {
      NoneInside(s, BEGIN, k, |s|);
      NoneInside(s, END, k, |s|);
      assert s[k..|s|] == s[k..];
    }
  }


  lemma {:induction false} SkipShift(s: Text, i: nat, k: nat)
    requires i + k <= |s|
    ensures SkipBreaks(s, i + k) == i + SkipBreaks(s[i..], k)
    decreases |s| - k
  {
    if i + k < |s| && s[i + k] in "\r\n" {
      assert s[i..][k] == s[i + k];
      SkipShift(s, i, k + 1);
    }
  }

  lemma {:induction false} ManagedCounts(s: Text, b: nat, e: nat)
    requires Managed(s, b, e)
    ensures Count(s, BEGIN, 0) == 1 && Count(s, END, 0) == 1 && Find(s, BEGIN, 0) == b && Find(s, END, b) == e
  {
    BothMarkers();
    CountOne(s, BEGIN);
    CountOne(s, END);
    FindIs(s, END, b);
    AroundUnmarked(s, b, e);
    hide OccursAt, Count;
  }

  /** Text before the pair is kept exactly, text after it less its leading line breaks. */
  lemma {:induction false} ReplaceKeepsAround(s: Text, block: Text, b: nat, e: nat)
    requires Managed(s, b, e)
    ensures e + |END| <= |s|
    ensures Replace(s, block) == Ok(s[..b] + block + Stripped(s[e + |END|..]))
  {
    AroundUnmarked(s, b, e);
    ManagedCounts(s, b, e);
    SkipShift(s, e + |END|, 0);
    hide Count, Find, SkipBreaks, Managed;
  }

  lemma {:induction false} StrippedAgain(pad: Text, s: Text)
    requires forall k :: 0 <= k < |pad| ==> pad[k] in "\r\n"
    ensures Stripped(pad + s) == Stripped(s)
  {
    SkipPad(pad, s, 0);
    assert (pad + s)[|pad|..] == s;
    SkipShift(pad + s, |pad|, 0);
  }

  lemma {:induction false} SkipPad(pad: Text, s: Text, i: nat)
    requires forall k :: 0 <= k < |pad| ==> pad[k] in "\r\n"
    requires i <= |pad|
    ensures SkipBreaks(pad + s, i) == SkipBreaks(pad + s, |pad|)
    decreases |pad| - i
  {
    if i < |pad| {
      assert (pad + s)[i] == pad[i];
      SkipPad(pad, s, i + 1);
    }
  }

  lemma {:induction false} StrippedIsStripped(s: Text)
    ensures Stripped(Stripped(s)) == Stripped(s)
  {
    SkipEnds(s, 0);
  }

  lemma {:induction false} SkipEnds(s: Text, i: nat)
    requires i <= |s|
    ensures var j := SkipBreaks(s, i); SkipBreaks(s[j..], 0) == 0
    decreases |s| - i
  {
    if i < |s| && s[i] in "\r\n" {
      SkipEnds(s, i + 1);
    }
  }

  /** Replacing inside text that surrounds a good block: the block goes, the rest stays. */
  lemma {:induction false} ReplaceBetween(pre: Text, block: Text, post: Text, next: Text)
    requires Unmarked(pre) && Unmarked(post) && GoodBlock(block)
    ensures Replace(pre + block + post, next) == Ok(pre + next + Stripped(post))
  {
    hide Replace, SkipBreaks, OccursAt, Sole, None;
    Inserted(pre, block, post);
    var s, e := pre + block + post, |pre| + |block| - |END| - 1;
    ReplaceKeepsAround(s, next, |pre|, e);
    assert s[..|pre|] == pre;
    assert s[e + |END|..] == "\n" + post;
    StrippedAgain("\n", post);
  }

  // ---- the results ----

  /** A managed file stays managed, and of two replacements only the last shows. */
  lemma {:induction false} LastReplacementWins(s: Text, first: Text, last: Text, b: nat, e: nat)
    requires Managed(s, b, e) && GoodBlock(first)
    ensures Replace(s, first).Ok? && Replace(Replace(s, first).text, last) == Replace(s, last)
    ensures exists e' :: Managed(Replace(s, first).text, b, e')
  {
    hide Replace, SkipBreaks, OccursAt, Sole, None;
    ReplaceKeepsAround(s, first, b, e);
    ReplaceKeepsAround(s, last, b, e);
    AroundUnmarked(s, b, e);
    var pre, rest := s[..b], s[e + |END|..];
    StrippedUnmarked(s, e + |END|);
    ReplaceBetween(pre, first, Stripped(rest), last);
    StrippedIsStripped(rest);
    Inserted(pre, first, Stripped(rest));
  }

  lemma {:induction false} StrippedUnmarked(s: Text, i: nat)
    requires i <= |s| && forall k :: i <= k <= |s| ==> Unmarked(s[k..])
    ensures Unmarked(Stripped(s[i..]))
  {
    hide OccursAt, None, Unmarked;
    var j := SkipBreaks(s[i..], 0);
    assert s[i..][j..] == s[i + j..];
  }

  /** Replacing twice with the same block is replacing once. */
  lemma {:induction false} Idempotent(s: Text, block: Text, b: nat, e: nat)
    requires Managed(s, b, e) && GoodBlock(block)
    ensures Replace(s, block).Ok? && Replace(Replace(s, block).text, block) == Replace(s, block)
  {
    hide *;
    LastReplacementWins(s, block, block, b, e);
  }

  /** Into an unmarked file the block goes first. A second application drops the line
      breaks between block and text and is then a fixed point; the first one already
      is a fixed point just for the empty file. */
  lemma {:induction false} FirstInstall(s: Text, block: Text)
    requires Unmarked(s) && GoodBlock(block)
    ensures
      var once := Replace(s, block);
      once == Ok(block + Separator(s) + s) &&
      Managed(once.text, 0, |block| - |END| - 1) &&
      var twice := Replace(once.text, block);
      twice == Ok(block + Stripped(s)) && Replace(twice.text, block) == twice &&
      (twice == once <==> s == "")
  {
    hide *;
    InstallOnce(s, block);
    InstallTwice(s, block);
    SameOnlyIfEmpty(s, block);
  }

  lemma {:induction false} InstallOnce(s: Text, block: Text)
    requires Unmarked(s) && GoodBlock(block)
    ensures Replace(s, block) == Ok(block + Separator(s) + s)
    ensures Managed(block + Separator(s) + s, 0, |block| - |END| - 1)
  {
    UnmarkedCounts(s);
    SeparatorUnmarked(s);
    hide OccursAt, Sole, None, Count, Find, Separator;
    assert "" + block + (Separator(s) + s) == block + Separator(s) + s;
    Inserted("", block, Separator(s) + s);
  }

  lemma {:induction false} InstallTwice(s: Text, block: Text)
    requires Unmarked(s) && GoodBlock(block)
    ensures Replace(block + Separator(s) + s, block) == Ok(block + Stripped(s))
    ensures Replace(block + Stripped(s), block) == Ok(block + Stripped(s))
  {
    hide *;
    SeparatorUnmarked(s);
    StrippedUnmarkedWhole(s);
    BlockFirst(block, Separator(s), s);
    ReplaceAtStart(block, Separator(s) + s, block);
    StrippedSeparated(s);
    ReplaceAtStart(block, Stripped(s), block);
    StrippedIsStripped(s);
  }

  lemma {:induction false} BlockFirst(block: Text, separator: Text, s: Text)
    ensures block + separator + s == block + (separator + s)
  {
  }

  lemma {:induction false} StrippedSeparated(s: Text)
    ensures Stripped(Separator(s) + s) == Stripped(s)
  {
    hide Stripped;
    StrippedAgain(Separator(s), s);
  }

  lemma {:induction false} ReplaceAtStart(block: Text, post: Text, next: Text)
    requires Unmarked(post) && GoodBlock(block)
    ensures Replace(block + post, next) == Ok(next + Stripped(post))
  {
    hide *;
    NothingUnmarked();
    ReplaceBetween("", block, post, next);
    assert "" + block == block && "" + next == next;
  }

  lemma {:induction false} NothingUnmarked()
    ensures Unmarked("")
  {
    BothMarkers();
  }

  lemma {:induction false} StrippedUnmarkedWhole(s: Text)
    requires Unmarked(s)
    ensures Unmarked(Stripped(s))
  {
    hide OccursAt;
    var j := SkipBreaks(s, 0);
    NoneInside(s, BEGIN, j, |s|);
    NoneInside(s, END, j, |s|);
    assert s[j..|s|] == s[j..];
  }

  lemma {:induction false} SeparatorUnmarked(s: Text)
    requires Unmarked(s)
    ensures Unmarked(Separator(s) + s)
  {
    BothMarkers();
    NoneJoined(Separator(s), s, BEGIN);
    NoneJoined(Separator(s), s, END);
  }

  lemma {:induction false} SameOnlyIfEmpty(s: Text, block: Text)
    ensures block + Stripped(s) == block + Separator(s) + s <==> s == ""
  {
    var j := SkipBreaks(s, 0);
    if s != "" {
      assert |block + Stripped(s)| == |block| + |s| - j;
      assert |block + Separator(s) + s| == |block| + |Separator(s)| + |s|;
      if s[0] == '\n' {
        assert j > 0;
      }
    }
  }

  lemma {:induction false} UnmarkedCounts(s: Text)
    ensures Unmarked(s) <==> Count(s, BEGIN, 0) == 0 && Count(s, END, 0) == 0
  {
    CountNone(s, BEGIN, 0);
    CountNone(s, END, 0);
  }

  /** Which files are refused: replacement succeeds exactly on unmarked files and on
      files with one pair in order. A lone pair in the wrong order is a ValueError. */
  lemma {:induction false} Refusals(s: Text, block: Text)
    ensures Replace(s, block).Ok? <==> Unmarked(s) || exists b, e :: Managed(s, b, e)
    ensures Replace(s, block) == ValueError <==> exists b, e :: Sole(s, BEGIN, b) && Sole(s, END, e) && e < b
  {
    BothMarkers();
    UnmarkedCounts(s);
    CountOne(s, BEGIN);
    CountOne(s, END);
    hide OccursAt, Count, None;
    FindIs(s, BEGIN, 0);
    var begin, end := Find(s, BEGIN, 0), Find(s, END, 0);
    FindIs(s, END, begin);
    if Sole(s, BEGIN, begin) && Sole(s, END, end) {
      DifferentStarts(s, begin, end);
      if begin < end {
        ReplaceKeepsAround(s, block, begin, end);
        assert Managed(s, begin, end);
      } else {
        EndNotAfter(s, begin, end);
      }
    }
  }

  lemma {:induction false} DifferentStarts(s: Text, b: nat, e: nat)
    requires OccursAt(s, BEGIN, b) && OccursAt(s, END, e)
    ensures b != e
  {
    CharAt(s, BEGIN, b, 2);
    CharAt(s, END, e, 2);
    CharAt(s, BEGIN, b, 3);
    CharAt(s, END, e, 3);
  }

  lemma {:induction false} EndNotAfter(s: Text, b: nat, e: nat)
    requires Sole(s, END, e) && e < b
    ensures Find(s, END, b) > |s|
  {
    FindIs(s, END, b);
  }

  /** Any run of replacements on a managed file ends as if only the last had been made. */
  function Run(s: Text, blocks: seq<Text>): Result {
    if blocks == [] then Ok(s)
    else
      var r := Run(s, blocks[..|blocks| - 1]);
      if r.Ok? then Replace(r.text, blocks[|blocks| - 1]) else r
  }

  lemma {:induction false} RunIsLast(s: Text, blocks: seq<Text>, b: nat, e: nat)
    requires Managed(s, b, e) && |blocks| > 0 && forall i :: 0 <= i < |blocks| ==> GoodBlock(blocks[i])
    ensures Run(s, blocks) == Replace(s, blocks[|blocks| - 1])
    ensures Run(s, blocks).Ok? && exists e' :: Managed(Run(s, blocks).text, b, e')
  {
    hide Replace, Managed, GoodBlock;
    var n := |blocks| - 1;
    LastReplacementWins(s, blocks[n], blocks[n], b, e);
    if n > 0 {
      RunIsLast(s, blocks[..n], b, e);
      LastReplacementWins(s, blocks[n - 1], blocks[n], b, e);
    } else {
      assert blocks[..n] == [];
    }
  }

  // ---- the block generate_config writes ----

  /** "\n".join(lines) */
  function Join(lines: seq<Text>): Text {
    if lines == [] then "" else if |lines| == 1 then lines[0] else lines[0] + "\n" + Join(lines[1..])
  }

  /** The marker lines around whatever lines the nodes give. */
  function Generated(body: seq<Text>): Text { Join([BEGIN] + body + [END, ""]) }

  function Lines(body: seq<Text>): Text { if body == [] then "" else body[0] + "\n" + Lines(body[1..]) }

  lemma {:induction false} JoinBody(body: seq<Text>)
    ensures Join(body + [END, ""]) == Lines(body) + (END + "\n")
  {
    if body == [] {
      assert body + [END, ""] == [END, ""] && [END, ""][1..] == [""];
      assert "" + (END + "\n") == END + "\n" == END + "\n" + "";
    } else {
      JoinBody(body[1..]);
      assert (body + [END, ""])[1..] == body[1..] + [END, ""];
      assert body[0] + "\n" + (Lines(body[1..]) + (END + "\n")) == body[0] + "\n" + Lines(body[1..]) + (END + "\n");
    }
  }

  lemma {:induction false} GeneratedIs(body: seq<Text>)
    ensures Generated(body) == BEGIN + "\n" + Lines(body) + (END + "\n")
  {
    JoinBody(body);
    var lines := [BEGIN] + body + [END, ""];
    assert lines[1..] == body + [END, ""];
    assert BEGIN + "\n" + (Lines(body) + (END + "\n")) == BEGIN + "\n" + Lines(body) + (END + "\n");
  }

  lemma {:induction false} LinesNone(body: seq<Text>, m: Text)
    requires IsMarker(m)
    ensures None(Lines(body), m) <==> forall i :: 0 <= i < |body| ==> None(body[i], m)
  {
    hide OccursAt;
    NoneEmpty(m);
    if body != [] {
      LinesNone(body[1..], m);
      NoneJoined(body[0], "\n", m);
      NoneJoined(body[0] + "\n", Lines(body[1..]), m);
      NoneBreak(m);
    }
  }

  lemma {:induction false} NoneEmpty(m: Text)
    requires IsMarker(m)
    ensures None("", m)
  {
  }

  lemma {:induction false} NoneBreak(m: Text)
    requires IsMarker(m)
    ensures None("\n", m)
  {
    forall j: nat ensures !OccursAt("\n", m, j) {
      CharAt("\n", m, j, 0);
    }
  }

  lemma {:induction false} SoleAlone(m: Text)
    requires IsMarker(m)
    ensures Sole(m + "\n", m, 0)
  {
    forall j: nat | OccursAt(m + "\n", m, j) ensures j == 0 {
      CharAt(m + "\n", m, j, 0);
    }
  }

  lemma {:induction false} ApartMarkers()
    ensures None(BEGIN + "\n", END) && None(END + "\n", BEGIN)
  {
    forall j: nat ensures !OccursAt(BEGIN + "\n", END, j) {
      CharAt(BEGIN + "\n", END, j, 0);
      CharAt(BEGIN + "\n", END, j, 3);
    }
  }

  /** The generated block is good exactly when no line of it holds a marker. */
  lemma {:induction false} GeneratedIsGood(body: seq<Text>)
    ensures GoodBlock(Generated(body)) <==> forall i :: 0 <= i < |body| ==> Unmarked(body[i])
  {
    BothMarkers();
    GeneratedIs(body);
    LinesNone(body, BEGIN);
    LinesNone(body, END);
    LinesEnd(body);
    GoodAround(Lines(body));
  }

  lemma {:induction false} LinesEnd(body: seq<Text>)
    ensures Lines(body) == "" || Lines(body)[|Lines(body)| - 1] == '\n'
  {
    if body != [] {
      LinesEnd(body[1..]);
    }
  }

  lemma {:induction false} GoodAround(middle: Text)
    requires middle == "" || middle[|middle| - 1] == '\n'
    ensures GoodBlock(BEGIN + "\n" + middle + (END + "\n")) <==> Unmarked(middle)
  {
    BothMarkers();
    ApartMarkers();
    SoleAlone(BEGIN);
    SoleAlone(END);
    var a, z := BEGIN + "\n", END + "\n";
    assert Seam(a, middle) && Seam(a + middle, z);
    hide OccursAt, IsMarker, Seam;
    NoneJoined(a, middle, END);
    NoneJoined(middle, z, BEGIN);
    if Unmarked(middle) {
      SoleLeft(a, middle, BEGIN, 0);
      SoleLeft(a + middle, z, BEGIN, 0);
      SoleRight(a + middle, z, END, 0);
    }
    if GoodBlock(a + middle + z) {
      SoleOutside(a, middle, z);
    }
  }

  lemma {:induction false} SoleOutside(a: Text, middle: Text, z: Text)
    requires a == BEGIN + "\n" && z == END + "\n"
    requires Sole(a + middle + z, BEGIN, 0) && Sole(a + middle + z, END, |a| + |middle|)
    ensures Unmarked(middle)
  {
    var s := a + middle + z;
    forall j: nat ensures !OccursAt(middle, BEGIN, j) && !OccursAt(middle, END, j) {
      if OccursAt(middle, BEGIN, j) {
        OccursWithin(a, middle, z, BEGIN, j);
      }
      if OccursAt(middle, END, j) {
        OccursWithin(a, middle, z, END, j);
      }
    }
  }

  lemma {:induction false} OccursWithin(a: Text, middle: Text, z: Text, m: Text, j: nat)
    requires OccursAt(middle, m, j)
    ensures OccursAt(a + middle + z, m, |a| + j)
  {
    forall k | 0 <= k < |m| ensures (a + middle + z)[|a| + j + k] == m[k] {
      CharAt(middle, m, j, k);
    }
  }
}

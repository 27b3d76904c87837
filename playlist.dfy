/**
 * The pure part of the playlist: which file names the intake accepts, the
 * order a folder's files are added in, how a folder and a file name are
 * joined, the index arithmetic of skipping, and the order in which the run
 * loop plays the files.
 */
module Playlist {
  import opened Wrappers
  import opened Arith

  function LowerAscii(c: char): char {
    if 'A' <= c <= 'Z' then (c as int + 32) as char else c
  }

  /** The extension test of the intake: the name, lower-cased, ends with ".mid". */
  predicate IsMidiPath(p: string) {
    && |p| >= 4
    && LowerAscii(p[|p| - 4]) == '.'
    && LowerAscii(p[|p| - 3]) == 'm'
    && LowerAscii(p[|p| - 2]) == 'i'
    && LowerAscii(p[|p| - 1]) == 'd'
  }

  /** The names the intake keeps, in their original order. */
  function MidiPaths(files: seq<string>): (r: seq<string>)
    ensures |r| <= |files|
    ensures forall k :: 0 <= k < |r| ==> IsMidiPath(r[k])
  {
    if files == [] then []
    else
      var last := files[|files| - 1];
      MidiPaths(files[..|files| - 1]) + if IsMidiPath(last) then [last] else []
  }

  /**
   * Each accepted name is kept as often as it occurs (the playlist may hold
   * a file twice), and every other name is dropped.
   */
  lemma {:induction false} MidiPathsCounts(files: seq<string>, p: string)
    ensures multiset(MidiPaths(files))[p] == if IsMidiPath(p) then multiset(files)[p] else 0
  {
    if files != [] {
      var last := files[|files| - 1];
      var init := files[..|files| - 1];
      assert files == init + [last];
      MidiPathsCounts(init, p);
    }
  }

  lemma MidiPathsSnoc(files: seq<string>, x: string)
    ensures MidiPaths(files + [x]) == MidiPaths(files) + if IsMidiPath(x) then [x] else []
  {
    assert (files + [x])[..|files|] == files;
  }

  /** One more dropped name taken in: appended when it passes the test, skipped otherwise. */
  lemma MidiPathsStep(base: seq<string>, files: seq<string>, i: nat)
    requires i < |files|
    ensures IsMidiPath(files[i]) ==>
      (base + MidiPaths(files[..i])) + [files[i]] == base + MidiPaths(files[..i + 1])
    ensures !IsMidiPath(files[i]) ==> base + MidiPaths(files[..i]) == base + MidiPaths(files[..i + 1])
  {
    assert files[..i + 1] == files[..i] + [files[i]];
    MidiPathsSnoc(files[..i], files[i]);
  }

  /** Filtering a concatenation filters each part: the intake can be done in batches. */
  lemma {:induction false} MidiPathsAppend(a: seq<string>, b: seq<string>)
    ensures MidiPaths(a + b) == MidiPaths(a) + MidiPaths(b)
    decreases |b|
  {
    if b != [] {
      var init := b[..|b| - 1];
      assert (a + b)[..|a + b| - 1] == a + init;
      MidiPathsAppend(a, init);
    } else {
      assert a + b == a;
    }
  }

  // ---------------------------------------------------------------------------
  // Sorting the names of a folder

  /** The order of Python strings: code point by code point, and a proper prefix first. */
  predicate LexLe(a: string, b: string) {
    a == [] || (b != [] && (a[0] < b[0] || (a[0] == b[0] && LexLe(a[1..], b[1..]))))
  }

  lemma {:induction false} LexLeTotal(a: string, b: string)
    ensures LexLe(a, b) || LexLe(b, a)
  {
    if a != [] && b != [] && a[0] == b[0] {
      LexLeTotal(a[1..], b[1..]);
    }
  }

  lemma {:induction false} LexLeTransitive(a: string, b: string, c: string)
    requires LexLe(a, b) && LexLe(b, c)
    ensures LexLe(a, c)
  {
    if a != [] && b != [] && c != [] && a[0] == b[0] && b[0] == c[0] {
      LexLeTransitive(a[1..], b[1..], c[1..]);
    }
  }

  lemma {:induction false} LexLeAntisymmetric(a: string, b: string)
    requires LexLe(a, b) && LexLe(b, a)
    ensures a == b
  {
    if a != [] && b != [] {
      LexLeAntisymmetric(a[1..], b[1..]);
      assert a == [a[0]] + a[1..] && b == [b[0]] + b[1..];
    }
  }

  predicate NamesSorted(s: seq<string>) {
    forall i, j :: 0 <= i < j < |s| ==> LexLe(s[i], s[j])
  }

  function InsertName(x: string, s: seq<string>): (r: seq<string>)
    ensures multiset(r) == multiset(s) + multiset{x}
  {
    if s == [] then [x]
    else if LexLe(x, s[0]) then [x] + s
    else
      assert s == [s[0]] + s[1..];
      [s[0]] + InsertName(x, s[1..])
  }

  /** The sort of a folder's accepted names: a permutation of them (see SortNamesSorted for the order). */
  function SortNames(s: seq<string>): (r: seq<string>)
    ensures multiset(r) == multiset(s)
  {
    if s == [] then []
    else
      assert s == [s[0]] + s[1..];
      InsertName(s[0], SortNames(s[1..]))
  }

  lemma {:induction false} InsertNameSorted(x: string, s: seq<string>)
    requires NamesSorted(s)
    ensures NamesSorted(InsertName(x, s))
  {
    if s == [] {
    } else if LexLe(x, s[0]) {
      forall j | 0 <= j < |s| ensures LexLe(x, s[j]) {
        if j > 0 {
          LexLeTransitive(x, s[0], s[j]);
        }
      }
      ConsSorted(x, s);
    } else {
      LexLeTotal(x, s[0]);
      InsertNameSorted(x, s[1..]);
      forall k | 0 <= k < |s[1..]| ensures LexLe(s[0], s[1..][k]) {
        assert s[1..][k] == s[k + 1];
      }
      InsertNameAllAfter(x, s[1..], s[0]);
      ConsSorted(s[0], InsertName(x, s[1..]));
    }
  }

  /** Inserting a name not before `y` into names not before `y` leaves them all not before `y`. */
  lemma InsertNameAllAfter(x: string, s: seq<string>, y: string)
    requires LexLe(y, x)
    requires forall k :: 0 <= k < |s| ==> LexLe(y, s[k])
    ensures forall j :: 0 <= j < |InsertName(x, s)| ==> LexLe(y, InsertName(x, s)[j])
  {
    var t := InsertName(x, s);
    forall j | 0 <= j < |t| ensures LexLe(y, t[j]) {
      assert t[j] in multiset(t);
      if t[j] != x {
        assert t[j] in multiset(s);
        var k :| 0 <= k < |s| && s[k] == t[j];
      }
    }
  }

  lemma ConsSorted(y: string, t: seq<string>)
    requires NamesSorted(t)
    requires forall j :: 0 <= j < |t| ==> LexLe(y, t[j])
    ensures NamesSorted([y] + t)
  {
    var r := [y] + t;
    forall i, j | 0 <= i < j < |r| ensures LexLe(r[i], r[j]) {
      assert r[j] == t[j - 1];
      if i > 0 {
        assert r[i] == t[i - 1];
      }
    }
  }

  lemma {:induction false} SortNamesSorted(s: seq<string>)
    ensures NamesSorted(SortNames(s))
  {
    if s != [] {
      SortNamesSorted(s[1..]);
      InsertNameSorted(s[0], SortNames(s[1..]));
    }
  }

  /**
   * There is only one sorted arrangement of a collection of names, so the
   * sort gives exactly the list Python's sorted() gives.
   */
  lemma {:induction false} SortedArrangementUnique(a: seq<string>, b: seq<string>)
    requires NamesSorted(a) && NamesSorted(b)
    requires multiset(a) == multiset(b)
    ensures a == b
    decreases |a|
  {
    if a != [] {
      assert |b| == |multiset(b)| == |a|;
      SortedHeadsAgree(a, b);
      assert a == [a[0]] + a[1..] && b == [b[0]] + b[1..];
      assert multiset(a[1..]) == multiset(a) - multiset{a[0]};
      assert multiset(b[1..]) == multiset(b) - multiset{b[0]};
      SortedArrangementUnique(a[1..], b[1..]);
    }
  }

  /** Two sorted arrangements of the same names start with the same name: the least one. */
  lemma SortedHeadsAgree(a: seq<string>, b: seq<string>)
    requires NamesSorted(a) && NamesSorted(b)
    requires multiset(a) == multiset(b) && a != [] && b != []
    ensures a[0] == b[0]
  {
    assert a[0] in multiset(b) && b[0] in multiset(a);
    var k :| 0 <= k < |b| && b[k] == a[0];
    var l :| 0 <= l < |a| && a[l] == b[0];
    if k > 0 && l > 0 {
      assert LexLe(b[0], b[k]);
      assert LexLe(a[0], a[l]);
      LexLeAntisymmetric(a[0], b[0]);
    }
  }

  // ---------------------------------------------------------------------------
  // Paths

  /**
   * os.path.join of a folder and one name, by the POSIX rules: an absolute
   * name replaces the folder, and a separator is put between them unless the
   * folder is empty or already ends with one.
   */
  function JoinPath(folder: string, name: string): string {
    if name != [] && name[0] == '/' then name
    else if folder == [] || folder[|folder| - 1] == '/' then folder + name
    else folder + "/" + name
  }

  /**
   * A joined path ends with the name; it starts with the folder unless the
   * name is absolute, in which case it is the name alone.
   */
  lemma JoinPathShape(folder: string, name: string)
    ensures var r := JoinPath(folder, name);
      && |name| <= |r| && r[|r| - |name|..] == name
      && (name != [] && name[0] == '/' ==> r == name)
      && (!(name != [] && name[0] == '/') ==> |folder| <= |r| && r[..|folder|] == folder)
  {
  }

  /** A joined path keeps the extension of the name, so folder entries pass the intake test too. */
  lemma JoinPathKeepsExtension(folder: string, name: string)
    requires IsMidiPath(name)
    ensures IsMidiPath(JoinPath(folder, name))
  {
    if !(name != [] && name[0] == '/') {
      var p := if folder == [] || folder[|folder| - 1] == '/' then folder else folder + "/";
      assert JoinPath(folder, name) == p + name;
      PrefixKeepsExtension(p, name);
    }
  }

  lemma PrefixKeepsExtension(p: string, name: string)
    requires IsMidiPath(name)
    ensures IsMidiPath(p + name)
  {
    var r := p + name;
    assert r[|r| - 4] == name[|name| - 4];
    assert r[|r| - 3] == name[|name| - 3];
    assert r[|r| - 2] == name[|name| - 2];
    assert r[|r| - 1] == name[|name| - 1];
  }

  /** The full paths a folder contributes, in the order of its sorted names. */
  function FolderEntries(folder: string, names: seq<string>): (r: seq<string>)
    ensures |r| == |names|
  {
    seq(|names|, k requires 0 <= k < |names| => JoinPath(folder, names[k]))
  }

  lemma FolderEntriesSnoc(folder: string, names: seq<string>, x: string)
    ensures FolderEntries(folder, names + [x]) == FolderEntries(folder, names) + [JoinPath(folder, x)]
  {
    var a := FolderEntries(folder, names + [x]);
    var b := FolderEntries(folder, names) + [JoinPath(folder, x)];
    assert forall k :: 0 <= k < |a| ==> a[k] == b[k];
  }

  /** The paths a folder contributes from accepted names are accepted paths themselves. */
  lemma FolderEntriesAreMidi(folder: string, names: seq<string>)
    requires forall k :: 0 <= k < |names| ==> IsMidiPath(names[k])
    ensures forall k :: 0 <= k < |names| ==> IsMidiPath(FolderEntries(folder, names)[k])
  {
    forall k | 0 <= k < |names| ensures IsMidiPath(FolderEntries(folder, names)[k]) {
      JoinPathKeepsExtension(folder, names[k]);
    }
  }

  /** One more name of the folder appended to the playlist. */
  lemma FolderEntriesStep(base: seq<string>, folder: string, names: seq<string>, i: nat)
    requires i < |names|
    ensures (base + FolderEntries(folder, names[..i])) + [JoinPath(folder, names[i])]
      == base + FolderEntries(folder, names[..i + 1])
  {
    assert names[..i + 1] == names[..i] + [names[i]];
    FolderEntriesSnoc(folder, names[..i], names[i]);
  }

  // ---------------------------------------------------------------------------
  // Skipping

  /** The index a skip forward moves to: the next file, and from the last one back to the first. */
  function NextIndex(i: int, k: nat): (r: nat)
    requires k > 0
    ensures r < k
    ensures 0 <= i < k - 1 ==> r == i + 1
    ensures i == k - 1 ==> r == 0
  {
    (i + 1) % k
  }

  /** The index a skip back moves to: the previous file, and from the first one to the last. */
  function PrevIndex(i: int, k: nat): (r: nat)
    requires k > 0
    ensures r < k
    ensures 0 < i < k ==> r == i - 1
    ensures i == 0 ==> r == k - 1
  {
    (i - 1) % k
  }

  /** Skipping back undoes skipping forward, and the other way round. */
  lemma SkipInverse(i: int, k: nat)
    requires k > 0 && 0 <= i < k
    ensures PrevIndex(NextIndex(i, k), k) == i
    ensures NextIndex(PrevIndex(i, k), k) == i
  {
    if i == k - 1 {
      assert NextIndex(i, k) == 0;
    }
    if i == 0 {
      assert PrevIndex(i, k) == k - 1;
    }
  }

  // ---------------------------------------------------------------------------
  // The run loop

  /**
   * The position the run loop plays from when its index is `i`: the index
   * itself while it is in range; past the end, the first file when looping,
   * and nothing (the loop ends) otherwise.
   */
  function NextToPlay(n: nat, looping: bool, i: nat): (r: Option<nat>)
    requires n > 0
    ensures r.Some? ==> r.value < n
    ensures r.None? <==> i >= n && !looping
  {
    if i < n then Some(i)
    else if looping then Some(0)
    else None
  }

  /** The files the run loop plays, from index `i` on, when it is let through at most `budget` files. */
  function PlayOrder(pl: seq<string>, looping: bool, i: nat, budget: nat): (r: seq<string>)
    requires |pl| > 0
    ensures |r| <= budget
    decreases budget
  {
    if budget == 0 then []
    else
      match NextToPlay(|pl|, looping, i)
      case None => []
      case Some(j) => [pl[j]] + PlayOrder(pl, looping, j + 1, budget - 1)
  }

  lemma PlayOrderStep(pl: seq<string>, looping: bool, i: nat, budget: nat, j: nat)
    requires |pl| > 0 && budget > 0
    requires NextToPlay(|pl|, looping, i) == Some(j)
    ensures PlayOrder(pl, looping, i, budget) == [pl[j]] + PlayOrder(pl, looping, j + 1, budget - 1)
  {
  }

  /** One more file played moves it from the rest of the order to what was played. */
  lemma PlayedShift(pl: seq<string>, looping: bool, i: nat, budget: nat, j: nat, played: seq<string>, order: seq<string>,
                    played': seq<string>)
    requires |pl| > 0 && |played| < budget
    requires NextToPlay(|pl|, looping, i) == Some(j)
    requires played + PlayOrder(pl, looping, i, budget - |played|) == order
    requires played' == played + [pl[j]]
    ensures played' + PlayOrder(pl, looping, j + 1, budget - |played'|) == order
  {
    PlayOrderStep(pl, looping, i, budget - |played|, j);
  }

  /** Where the loop stops, what it has played is a prefix of the play order, and all of it once the budget is spent or the order ends. */
  lemma PlayedPrefix(pl: seq<string>, looping: bool, i: nat, budget: nat, played: seq<string>, order: seq<string>)
    requires |pl| > 0 && |played| <= budget
    requires played + PlayOrder(pl, looping, i, budget - |played|) == order
    ensures played <= order
    ensures |played| == budget || NextToPlay(|pl|, looping, i).None? ==> played == order
  {
  }

  /** The run loop plays nothing but playlist entries. */
  lemma {:induction false} PlayOrderEntries(pl: seq<string>, looping: bool, i: nat, budget: nat)
    requires |pl| > 0
    ensures forall k :: 0 <= k < |PlayOrder(pl, looping, i, budget)| ==> PlayOrder(pl, looping, i, budget)[k] in pl
    decreases budget
  {
    if budget > 0 && NextToPlay(|pl|, looping, i).Some? {
      var j := NextToPlay(|pl|, looping, i).value;
      PlayOrderEntries(pl, looping, j + 1, budget - 1);
    }
  }

  /** Without looping the loop plays the files from the index to the end, once each, and stops. */
  lemma {:induction false} PlayOrderOnce(pl: seq<string>, i: nat, budget: nat)
    requires |pl| > 0
    ensures i >= |pl| ==> PlayOrder(pl, false, i, budget) == []
    ensures i < |pl| ==> PlayOrder(pl, false, i, budget) == pl[i..if i + budget <= |pl| then i + budget else |pl|]
    decreases budget
  {
    if budget > 0 && i < |pl| {
      PlayOrderOnce(pl, i + 1, budget - 1);
      var end := if i + budget <= |pl| then i + budget else |pl|;
      assert pl[i..end] == [pl[i]] + pl[i + 1..end];
    }
  }

  /**
   * With looping the loop never ends by itself: it plays as many files as it
   * is let through, going round the playlist from the index (or from the
   * first file when the index is past the end).
   */
  lemma {:induction false} PlayOrderLooping(pl: seq<string>, i: nat, budget: nat)
    requires |pl| > 0
    ensures |PlayOrder(pl, true, i, budget)| == budget
    ensures forall k :: 0 <= k < budget ==>
      PlayOrder(pl, true, i, budget)[k] == pl[((if i < |pl| then i else 0) + k) % |pl|]
  {
    forall k | 0 <= k < budget
      ensures k < |PlayOrder(pl, true, i, budget)|
      ensures PlayOrder(pl, true, i, budget)[k] == pl[((if i < |pl| then i else 0) + k) % |pl|]
    {
      PlayOrderLoopingAt(pl, i, budget, k);
    }
    PlayOrderLoopingLength(pl, i, budget);
  }

  lemma {:induction false} PlayOrderLoopingLength(pl: seq<string>, i: nat, budget: nat)
    requires |pl| > 0
    ensures |PlayOrder(pl, true, i, budget)| == budget
    decreases budget
  {
    if budget > 0 {
      var s := if i < |pl| then i else 0;
      assert NextToPlay(|pl|, true, i) == Some(s);
      PlayOrderLoopingLength(pl, s + 1, budget - 1);
    }
  }

  lemma {:induction false} PlayOrderLoopingAt(pl: seq<string>, i: nat, budget: nat, k: nat)
    requires |pl| > 0 && k < budget
    ensures k < |PlayOrder(pl, true, i, budget)|
    ensures PlayOrder(pl, true, i, budget)[k] == pl[((if i < |pl| then i else 0) + k) % |pl|]
    decreases k
  {
    var s := if i < |pl| then i else 0;
    assert NextToPlay(|pl|, true, i) == Some(s);
    var t := PlayOrder(pl, true, s + 1, budget - 1);
    assert PlayOrder(pl, true, i, budget) == [pl[s]] + t;
    if k > 0 {
      PlayOrderLoopingAt(pl, s + 1, budget - 1, k - 1);
      LoopStep(s, k, |pl|);
    } else {
      DivModUnique(s, |pl|, 0, s);
    }
  }

  /** One step round the playlist: starting at the file after `s` and going `k - 1` further is going `k` from `s`. */
  lemma LoopStep(s: nat, k: nat, n: nat)
    requires s < n && k > 0
    ensures ((if s + 1 < n then s + 1 else 0) + (k - 1)) % n == (s + k) % n
  {
    if s + 1 == n {
      ModShift(k - 1, n);
    }
  }
}

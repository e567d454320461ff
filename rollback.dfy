/**
 * The backup store of rollback.py. The `backups` directory is a finite map from
 * entry name to the tree copied there; the live deployments are a second map from
 * path to tree. `create_backup` copies a live tree into the store and applies the
 * retention rule, `list_backups` lists a site's entries newest first,
 * `cleanup_old_backups` deletes all but the first `keep`, and `rollback` puts a
 * chosen backup back in place of the live tree.
 */
module Rollback {
  import opened Common
  import Text

  /** A directory tree as `copytree(..., symlinks=True)` copies it: links are kept as links. */
  datatype Node = File(data: seq<bv8>) | Link(target: string) | Dir(entries: map<string, Node>)

  /** One element of the list `list_backups` returns. */
  datatype BackupInfo = BackupInfo(name: string, path: string, timestamp: string)

  const BackupDir: string := "backups"

  /** `item.split('_', 1)[1] if '_' in item else 'unknown'`. */
  function TimestampOf(name: string): (r: string)
    ensures '_' !in name ==> r == "unknown"
    ensures '_' in name ==> exists k :: 0 <= k < |name| && name[k] == '_' && '_' !in name[..k] && r == name[k + 1..]
  {
    match FirstWhere(name, (c: char) => c == '_')
    case None => "unknown"
    case Some(k) =>
      assert '_' !in name[..k] by {
        forall i | 0 <= i < k ensures name[..k][i] != '_' {
          assert name[..k][i] == name[i];
        }
      }
      name[k + 1..]
  }

  /** The timestamp read back from a name the store itself made is the one it was made with, when the site name has no `_`. */
  lemma TimestampRoundTrip(site: string, timestamp: string)
    requires '_' !in site
    ensures TimestampOf(site + "_" + timestamp) == timestamp
  {
    var name := site + "_" + timestamp;
    assert name[|site|] == '_';
    assert name[..|site|] == site;
    assert name[|site| + 1..] == timestamp;
  }

  /** The element `list_backups` builds for a directory entry. */
  function Info(name: string): BackupInfo {
    BackupInfo(name, BackupDir + "/" + name, TimestampOf(name))
  }

  /** The entries `list_backups(site)` keeps: a plain prefix test on the entry name. */
  function Matching(store: map<string, Node>, site: string): set<string> {
    set n | n in store && Text.StartsWith(n, site)
  }

  /**
   * A site whose name extends another's shares its backups with it: every entry
   * listed for `longer` is also listed, pruned and restorable for `site`
   * (`blog` also takes `blogs_...`).
   */
  lemma PrefixSharesBackups(store: map<string, Node>, site: string, longer: string)
    requires Text.StartsWith(longer, site)
    ensures Matching(store, longer) <= Matching(store, site)
  {
    forall n | n in Matching(store, longer) ensures n in Matching(store, site) {
      assert n[..|longer|][..|site|] == n[..|site|];
    }
  }

  /** Newest first: each timestamp is at most the ones before it. */
  predicate SortedDesc(list: seq<BackupInfo>) {
    forall i, j :: 0 <= i < j < |list| ==> Text.LexAtMost(list[j].timestamp, list[i].timestamp)
  }

  predicate DistinctNames(list: seq<BackupInfo>) {
    forall i, j :: 0 <= i < |list| && 0 <= j < |list| && i != j ==> list[i].name != list[j].name
  }

  function NamesOf(list: seq<BackupInfo>): set<string> {
    set i | 0 <= i < |list| :: list[i].name
  }

  /**
   * What `list_backups(site)` returns for a store: each matching entry once, no
   * other entry, each described by its name, newest first.
   */
  predicate IsListing(store: map<string, Node>, site: string, list: seq<BackupInfo>) {
    && SortedDesc(list)
    && DistinctNames(list)
    && NamesOf(list) == Matching(store, site)
    && forall i :: 0 <= i < |list| ==> list[i] == Info(list[i].name)
  }

  // ---------------------------------------------------------------------------
  // backups.sort(key=lambda x: x['timestamp'], reverse=True)
  // ---------------------------------------------------------------------------

  /** Put `x` after every element whose timestamp is not below its own (a stable descending insertion). */
  function InsertDesc(list: seq<BackupInfo>, x: BackupInfo): seq<BackupInfo> {
    if |list| == 0 then [x]
    else if Text.LexLess(list[0].timestamp, x.timestamp) then [x] + list
    else [list[0]] + InsertDesc(list[1..], x)
  }

  /** The stable sort by descending timestamp, element by element in list order. */
  function SortDesc(list: seq<BackupInfo>): seq<BackupInfo> {
    if |list| == 0 then []
    else InsertDesc(SortDesc(list[..|list| - 1]), list[|list| - 1])
  }

  lemma {:induction false} InsertDescElements(list: seq<BackupInfo>, x: BackupInfo)
    ensures |InsertDesc(list, x)| == |list| + 1
    ensures multiset(InsertDesc(list, x)) == multiset(list) + multiset{x}
    ensures forall y :: y in InsertDesc(list, x) <==> y in list || y == x
  {
    if |list| > 0 && !Text.LexLess(list[0].timestamp, x.timestamp) {
      InsertDescElements(list[1..], x);
      assert list == [list[0]] + list[1..];
    }
  }

  /** An element in front of a sorted list whose timestamp is at least all of its own keeps it sorted. */
  lemma ConsSorted(a: BackupInfo, list: seq<BackupInfo>)
    requires SortedDesc(list)
    requires forall y :: y in list ==> Text.LexAtMost(y.timestamp, a.timestamp)
    ensures SortedDesc([a] + list)
  {
    var l := [a] + list;
    forall i, j | 0 <= i < j < |l| ensures Text.LexAtMost(l[j].timestamp, l[i].timestamp) {
      assert l[j] == list[j - 1];
      if i > 0 {
        assert l[i] == list[i - 1];
      }
    }
  }

  lemma ConsDistinct(a: BackupInfo, list: seq<BackupInfo>)
    requires DistinctNames(list)
    requires forall y :: y in list ==> y.name != a.name
    ensures DistinctNames([a] + list)
  {
    var l := [a] + list;
    forall i, j | 0 <= i < |l| && 0 <= j < |l| && i != j ensures l[i].name != l[j].name {
      if i > 0 { assert l[i] == list[i - 1]; }
      if j > 0 { assert l[j] == list[j - 1]; }
    }
  }

  lemma {:induction false} InsertDescSorted(list: seq<BackupInfo>, x: BackupInfo)
    requires SortedDesc(list)
    ensures SortedDesc(InsertDesc(list, x))
  {
    if |list| > 0 {
      if Text.LexLess(list[0].timestamp, x.timestamp) {
        forall y | y in list ensures Text.LexAtMost(y.timestamp, x.timestamp) {
          var i :| 0 <= i < |list| && list[i] == y;
          if i > 0 {
            Text.LexAtMostTransitive(y.timestamp, list[0].timestamp, x.timestamp);
          }
        }
        ConsSorted(x, list);
      } else {
        InsertDescSorted(list[1..], x);
        InsertDescElements(list[1..], x);
        Text.NotLessIsAtLeast(list[0].timestamp, x.timestamp);
        forall y | y in InsertDesc(list[1..], x) ensures Text.LexAtMost(y.timestamp, list[0].timestamp) {
          if y != x {
            var i :| 0 <= i < |list[1..]| && list[1..][i] == y;
            assert list[i + 1] == y;
          }
        }
        ConsSorted(list[0], InsertDesc(list[1..], x));
      }
    }
  }

  lemma {:induction false} InsertDescDistinct(list: seq<BackupInfo>, x: BackupInfo)
    requires DistinctNames(list)
    requires forall y :: y in list ==> y.name != x.name
    ensures DistinctNames(InsertDesc(list, x))
  {
    if |list| > 0 {
      if Text.LexLess(list[0].timestamp, x.timestamp) {
        ConsDistinct(x, list);
      } else {
        var rest := list[1..];
        assert DistinctNames(rest) by {
          forall i, j | 0 <= i < |rest| && 0 <= j < |rest| && i != j ensures rest[i].name != rest[j].name {
            assert rest[i] == list[i + 1] && rest[j] == list[j + 1];
          }
        }
        InsertDescDistinct(rest, x);
        InsertDescElements(rest, x);
        forall y | y in InsertDesc(rest, x) ensures y.name != list[0].name {
          if y != x {
            var i :| 0 <= i < |rest| && rest[i] == y;
            assert list[i + 1] == y;
          }
        }
        ConsDistinct(list[0], InsertDesc(rest, x));
      }
    }
  }

  /** The sort returns a permutation of its input. */
  lemma {:induction false} SortDescPermutation(list: seq<BackupInfo>)
    ensures |SortDesc(list)| == |list|
    ensures multiset(SortDesc(list)) == multiset(list)
  {
    if |list| > 0 {
      var init, last := list[..|list| - 1], list[|list| - 1];
      assert list == init + [last];
      SortDescPermutation(init);
      InsertDescElements(SortDesc(init), last);
    }
  }

  /** The sort puts the newest first. */
  lemma {:induction false} SortDescSorted(list: seq<BackupInfo>)
    ensures SortedDesc(SortDesc(list))
  {
    if |list| > 0 {
      SortDescSorted(list[..|list| - 1]);
      InsertDescSorted(SortDesc(list[..|list| - 1]), list[|list| - 1]);
    }
  }

  /** The sort keeps names distinct. */
  lemma {:induction false} SortDescDistinct(list: seq<BackupInfo>)
    requires DistinctNames(list)
    ensures DistinctNames(SortDesc(list))
  {
    if |list| > 0 {
      var init, last := list[..|list| - 1], list[|list| - 1];
      assert DistinctNames(init) by {
        forall i, j | 0 <= i < |init| && 0 <= j < |init| && i != j ensures init[i].name != init[j].name {
          assert init[i] == list[i] && init[j] == list[j];
        }
      }
      SortDescDistinct(init);
      SortDescPermutation(init);
      forall y | y in SortDesc(init) ensures y.name != last.name {
        assert y in multiset(SortDesc(init));
        var i :| 0 <= i < |init| && init[i] == y;
        assert list[i] == y;
      }
      InsertDescDistinct(SortDesc(init), last);
    }
  }

  // ---------------------------------------------------------------------------
  // Retention
  // ---------------------------------------------------------------------------

  /** Where Python's `xs[keep:]` starts in a list of `n` elements; it is also how many `xs[:keep]` keeps. */
  function SliceStart(keep: int, n: nat): (r: nat)
    ensures r <= n
  {
    if keep >= 0 then (if keep < n then keep else n)
    else if n + keep > 0 then n + keep else 0
  }

  /**
   * The effect of `cleanup_old_backups(site, keep)` as the store sees it: entries
   * are only removed, never changed; other sites' entries stay; the site keeps as
   * many entries as `backups[:keep]` holds; and no kept entry is older than a
   * removed one.
   */
  predicate Retains(before: map<string, Node>, after: map<string, Node>, site: string, keep: int) {
    && (forall n :: n in after ==> n in before && after[n] == before[n])
    && (forall n :: n in before && !Text.StartsWith(n, site) ==> n in after)
    && |Matching(after, site)| == SliceStart(keep, |Matching(before, site)|)
    && forall k, r :: k in Matching(after, site) && r in Matching(before, site) && r !in after ==>
         Text.LexAtMost(TimestampOf(r), TimestampOf(k))
  }

  lemma {:induction false} DistinctNamesCount(list: seq<BackupInfo>)
    requires DistinctNames(list)
    ensures |NamesOf(list)| == |list|
  {
    if |list| > 0 {
      var init := list[..|list| - 1];
      assert DistinctNames(init) by {
        forall i, j | 0 <= i < |init| && 0 <= j < |init| && i != j ensures init[i].name != init[j].name {
          assert init[i] == list[i] && init[j] == list[j];
        }
      }
      DistinctNamesCount(init);
      assert NamesOf(list) == NamesOf(init) + {list[|list| - 1].name} by {
        forall n | n in NamesOf(list) ensures n in NamesOf(init) + {list[|list| - 1].name} {
          var i :| 0 <= i < |list| && list[i].name == n;
          if i < |list| - 1 { assert init[i] == list[i]; }
        }
        forall n | n in NamesOf(init) ensures n in NamesOf(list) {
          var i :| 0 <= i < |init| && init[i].name == n;
          assert list[i] == init[i];
        }
      }
      assert list[|list| - 1].name !in NamesOf(init) by {
        forall i | 0 <= i < |init| ensures init[i].name != list[|list| - 1].name {
          assert init[i] == list[i];
        }
      }
    }
  }

  /** Deleting the listing's entries from position `start` on keeps exactly its first `start` names. */
  lemma RemainingNames(list: seq<BackupInfo>, start: nat)
    requires DistinctNames(list) && start <= |list|
    ensures NamesOf(list) - NamesOf(list[start..]) == NamesOf(list[..start])
  {
    forall n | n in NamesOf(list[..start]) ensures n in NamesOf(list) && n !in NamesOf(list[start..]) {
      var i :| 0 <= i < start && list[..start][i].name == n;
      assert list[i].name == n;
      forall j | 0 <= j < |list| - start ensures list[start..][j].name != n {
        assert list[start..][j] == list[start + j];
      }
    }
    forall n | n in NamesOf(list) && n !in NamesOf(list[start..]) ensures n in NamesOf(list[..start]) {
      var i :| 0 <= i < |list| && list[i].name == n;
      if i < start {
        assert list[..start][i] == list[i];
      }
    }
  }

  /** Removing the tail of a listing from `SliceStart(keep, _)` on is a retention step. */
  lemma RetentionOfListing(store: map<string, Node>, site: string, list: seq<BackupInfo>, keep: int)
    requires IsListing(store, site, list)
    ensures Retains(store, store - NamesOf(list[SliceStart(keep, |list|)..]), site, keep)
  {
    var start := SliceStart(keep, |list|);
    var after := store - NamesOf(list[start..]);
    RemainingNames(list, start);
    assert Matching(after, site) == NamesOf(list[..start]);
    RetainedCount(list, start);
    DistinctNamesCount(list);
    RetainedNewest(store, site, list, start);
    forall n | n in store && !Text.StartsWith(n, site) ensures n in after {
      assert n !in NamesOf(list);
    }
  }

  lemma RetainedCount(list: seq<BackupInfo>, start: nat)
    requires DistinctNames(list) && start <= |list|
    ensures |NamesOf(list[..start])| == start
  {
    var head := list[..start];
    assert DistinctNames(head) by {
      forall i, j | 0 <= i < |head| && 0 <= j < |head| && i != j ensures head[i].name != head[j].name {
        assert head[i] == list[i] && head[j] == list[j];
      }
    }
    DistinctNamesCount(head);
  }

  lemma RetainedNewest(store: map<string, Node>, site: string, list: seq<BackupInfo>, start: nat)
    requires SortedDesc(list) && start <= |list|
    requires forall i :: 0 <= i < |list| ==> list[i] == Info(list[i].name)
    requires NamesOf(list) == Matching(store, site)
    ensures forall k, r :: k in NamesOf(list[..start]) && r in NamesOf(list[start..]) ==>
      Text.LexAtMost(TimestampOf(r), TimestampOf(k))
  {
    forall k, r | k in NamesOf(list[..start]) && r in NamesOf(list[start..])
      ensures Text.LexAtMost(TimestampOf(r), TimestampOf(k))
    {
      var a :| 0 <= a < start && list[..start][a].name == k;
      var b :| 0 <= b < |list| - start && list[start..][b].name == r;
      assert list[..start][a] == list[a] && list[start..][b] == list[start + b];
      assert list[a] == Info(k) && list[start + b] == Info(r);
    }
  }

  /**
   * A backup whose timestamp is newer than every other entry of its site survives
   * any retention step that keeps at least one entry.
   */
  lemma NewestSurvives(before: map<string, Node>, after: map<string, Node>, site: string, keep: int, name: string)
    requires Retains(before, after, site, keep) && keep >= 1
    requires NewestOf(before, site, name)
    ensures name in after && after[name] == before[name]
  {
    if name !in after {
      assert |Matching(after, site)| >= 1;
      var k :| k in Matching(after, site);
      assert Matching(after, site) <= Matching(before, site);
      assert Text.LexAtMost(TimestampOf(name), TimestampOf(k));
      Text.LexLessAsymmetric(TimestampOf(k), TimestampOf(name));
      Text.LexLessIrreflexive(TimestampOf(name));
      assert false;
    }
  }

  /** Whether a `backup_name` argument means "the latest": Python's `not backup_name`. */
  predicate Unnamed(backupName: Option<string>) {
    backupName.None? || backupName.value == ""
  }

  /** `name` is one of the site's entries with the greatest timestamp. */
  predicate Latest(store: map<string, Node>, site: string, name: string) {
    name in Matching(store, site) &&
    forall m :: m in Matching(store, site) ==> Text.LexAtMost(TimestampOf(m), TimestampOf(name))
  }

  /** With one strictly newest entry, it is the only latest one. */
  lemma LatestIsNewest(store: map<string, Node>, site: string, name: string, other: string)
    requires NewestOf(store, site, name)
    requires Latest(store, site, other)
    ensures other == name
  {
    if other != name {
      assert Text.LexLess(TimestampOf(other), TimestampOf(name));
      assert Text.LexAtMost(TimestampOf(name), TimestampOf(other));
      Text.LexLessAsymmetric(TimestampOf(other), TimestampOf(name));
      Text.LexLessIrreflexive(TimestampOf(name));
    }
  }

  /** Taking one more entry off the walk adds it to the names seen, when it matches. */
  lemma MatchingStep(store: map<string, Node>, site: string, remaining: set<string>, item: string)
    requires item in remaining && remaining <= store.Keys
    ensures Text.StartsWith(item, site) ==>
      Matching(store, site) - (remaining - {item}) == (Matching(store, site) - remaining) + {item}
    ensures !Text.StartsWith(item, site) ==>
      Matching(store, site) - (remaining - {item}) == Matching(store, site) - remaining
    ensures Text.StartsWith(item, site) ==> item !in Matching(store, site) - remaining
  {
  }

  lemma RemoveOneMore(store: map<string, Node>, removed: set<string>, name: string)
    ensures store - removed - {name} == store - (removed + {name})
  {
  }

  lemma NamesOfSnoc(list: seq<BackupInfo>, x: BackupInfo)
    ensures NamesOf(list + [x]) == NamesOf(list) + {x.name}
  {
    var l := list + [x];
    assert l[|list|] == x;
    forall n | n in NamesOf(l) ensures n in NamesOf(list) + {x.name} {
      var i :| 0 <= i < |l| && l[i].name == n;
      if i < |list| { assert l[i] == list[i]; }
    }
    forall n | n in NamesOf(list) ensures n in NamesOf(l) {
      var i :| 0 <= i < |list| && list[i].name == n;
      assert l[i] == list[i];
    }
  }

  lemma DistinctSnoc(list: seq<BackupInfo>, x: BackupInfo)
    requires DistinctNames(list) && x.name !in NamesOf(list)
    ensures DistinctNames(list + [x])
  {
    var l := list + [x];
    forall i, j | 0 <= i < |l| && 0 <= j < |l| && i != j ensures l[i].name != l[j].name {
      if i < |list| { assert l[i] == list[i]; }
      if j < |list| { assert l[j] == list[j]; }
    }
  }

  /** Sorting the entries found in a directory walk gives the listing of the store. */
  lemma SortedListing(store: map<string, Node>, site: string, found: seq<BackupInfo>)
    requires DistinctNames(found) && NamesOf(found) == Matching(store, site)
    requires forall i :: 0 <= i < |found| ==> found[i] == Info(found[i].name)
    ensures IsListing(store, site, SortDesc(found))
  {
    var list := SortDesc(found);
    SortDescPermutation(found);
    SortDescSorted(found);
    SortDescDistinct(found);
    forall i | 0 <= i < |list| ensures list[i] in found {
      assert list[i] in multiset(list);
    }
    forall i | 0 <= i < |found| ensures found[i] in list {
      assert found[i] in multiset(found);
    }
    SameElementsSameNames(list, found);
  }

  lemma SameElementsSameNames(list: seq<BackupInfo>, found: seq<BackupInfo>)
    requires forall i :: 0 <= i < |list| ==> list[i] in found
    requires forall i :: 0 <= i < |found| ==> found[i] in list
    requires forall i :: 0 <= i < |found| ==> found[i] == Info(found[i].name)
    ensures NamesOf(list) == NamesOf(found)
    ensures forall i :: 0 <= i < |list| ==> list[i] == Info(list[i].name)
  {
    forall n | n in NamesOf(list) ensures n in NamesOf(found) {
      var i :| 0 <= i < |list| && list[i].name == n;
      var j :| 0 <= j < |found| && found[j] == list[i];
    }
    forall n | n in NamesOf(found) ensures n in NamesOf(list) {
      var i :| 0 <= i < |found| && found[i].name == n;
      var j :| 0 <= j < |list| && list[j] == found[i];
    }
    forall i | 0 <= i < |list| ensures list[i] == Info(list[i].name) {
      var j :| 0 <= j < |found| && found[j] == list[i];
    }
  }

  /** `name` is an entry of the site whose timestamp is newer than every other entry's of the site. */
  predicate NewestOf(store: map<string, Node>, site: string, name: string) {
    name in Matching(store, site) &&
    forall m :: m in Matching(store, site) && m != name ==> Text.LexLess(TimestampOf(m), TimestampOf(name))
  }

  /** A new entry for a site without `_` in its name, newer than all the site's entries, is its strict newest. */
  lemma StagedIsNewest(store: map<string, Node>, site: string, timestamp: string, tree: Node)
    requires '_' !in site && site + "_" + timestamp !in store
    requires forall m :: m in Matching(store, site) ==> Text.LexLess(TimestampOf(m), timestamp)
    ensures NewestOf(store[site + "_" + timestamp := tree], site, site + "_" + timestamp)
  {
    var name := site + "_" + timestamp;
    TimestampRoundTrip(site, timestamp);
    assert name[..|site|] == site;
  }

  /** What `create_backup` ends with: the backup's path, or the exception `copytree` raises. */
  datatype BackupOutcome = Created(path: string) | SourceMissing | AlreadyExists

  class RollbackManager {
    /** The `backups` directory: entry name to the tree stored under it. */
    var backups: map<string, Node>
    /** The live deployments: path to the tree found there. */
    var trees: map<string, Node>

    /** `os.makedirs(backup_dir, exist_ok=True)`: the backups already in the directory stay. */
    constructor (backups: map<string, Node>, trees: map<string, Node>)
      ensures this.backups == backups && this.trees == trees
    {
      this.backups := backups;
      this.trees := trees;
    }

    /**
     * `list_backups`: walk the directory in whatever order the listing gives,
     * keep the names that start with the site name, then sort newest first.
     */
    method ListBackups(site: string) returns (list: seq<BackupInfo>)
      ensures IsListing(backups, site, list)
    {
      var store := backups;
      var remaining := store.Keys;
      var found: seq<BackupInfo> := [];
      while remaining != {}
        invariant remaining <= store.Keys
        invariant forall i :: 0 <= i < |found| ==> found[i] == Info(found[i].name)
        invariant DistinctNames(found)
        invariant NamesOf(found) == Matching(store, site) - remaining
        decreases |remaining|
      {
        var item :| item in remaining;
        MatchingStep(store, site, remaining, item);
        if Text.StartsWith(item, site) {
          NamesOfSnoc(found, Info(item));
          DistinctSnoc(found, Info(item));
          found := found + [Info(item)];
        }
        remaining := remaining - {item};
      }
      list := SortDesc(found);
      SortedListing(store, site, found);
    }

    /** `cleanup_old_backups`: delete every entry the listing shows past position `keep`. */
    method CleanupOldBackups(site: string, keep: int)
      modifies this`backups
      ensures Retains(old(backups), backups, site, keep)
      ensures exists list ::
        IsListing(old(backups), site, list) && backups == old(backups) - NamesOf(list[SliceStart(keep, |list|)..])
    {
      var list := ListBackups(site);
      var start := SliceStart(keep, |list|);
      if |list| > keep {
        var i := start;
        while i < |list|
          invariant start <= i <= |list|
          invariant backups == old(backups) - NamesOf(list[start..i])
        {
          assert list[start..i + 1] == list[start..i] + [list[i]];
          NamesOfSnoc(list[start..i], list[i]);
          RemoveOneMore(old(backups), NamesOf(list[start..i]), list[i].name);
          backups := backups - {list[i].name};
          i := i + 1;
        }
        assert list[start..i] == list[start..];
      } else {
        assert NamesOf(list[start..]) == {};
        assert backups == old(backups) - {};
      }
      RetentionOfListing(old(backups), site, list, keep);
    }

    /**
     * `create_backup` at a given `strftime('%Y%m%d_%H%M%S')` reading: copy the live
     * tree to `<site>_<timestamp>`, then keep the newest five of the site.
     */
    method CreateBackup(site: string, sitePath: string, timestamp: string) returns (outcome: BackupOutcome)
      modifies this`backups
      ensures var name := site + "_" + timestamp;
        outcome == if sitePath !in trees then SourceMissing
                   else if name in old(backups) then AlreadyExists
                   else Created(BackupDir + "/" + name)
      ensures !outcome.Created? ==> backups == old(backups)
      ensures outcome.Created? ==> Retains(old(backups)[site + "_" + timestamp := trees[sitePath]], backups, site, 5)
      ensures outcome.Created? ==> |Matching(backups, site)| <= 5
    {
      var name := site + "_" + timestamp;
      if sitePath !in trees {
        return SourceMissing;
      }
      if name in backups {
        return AlreadyExists;
      }
      backups := backups[name := trees[sitePath]];
      CleanupOldBackups(site, 5);
      outcome := Created(BackupDir + "/" + name);
    }

    /**
     * `rollback`: with no name (or an empty one) restore the site's newest backup,
     * otherwise the backup with exactly that name; replace the live tree with it.
     * No backups, or a name that is not among them, changes nothing.
     */
    method Rollback(site: string, sitePath: string, backupName: Option<string>) returns (ok: bool)
      modifies this`trees
      ensures ok <==> Matching(backups, site) != {} && (Unnamed(backupName) || backupName.value in Matching(backups, site))
      ensures !ok ==> trees == old(trees)
      ensures ok && !Unnamed(backupName) ==> trees == old(trees)[sitePath := backups[backupName.value]]
      ensures ok && Unnamed(backupName) ==>
        exists name :: Latest(backups, site, name) && trees == old(trees)[sitePath := backups[name]]
    {
      var list := ListBackups(site);
      if |list| == 0 {
        assert Matching(backups, site) == {};
        return false;
      }
      var chosen: BackupInfo;
      if Unnamed(backupName) {
        chosen := list[0];
        assert chosen.name in NamesOf(list);
        forall m | m in Matching(backups, site) ensures Text.LexAtMost(TimestampOf(m), TimestampOf(chosen.name)) {
          var j :| 0 <= j < |list| && list[j].name == m;
          assert list[j] == Info(m);
        }
      } else {
        var name := backupName.value;
        match FirstWhere(list, (b: BackupInfo) => b.name == name)
        case None =>
          assert name !in Matching(backups, site) by {
            forall j | 0 <= j < |list| ensures list[j].name != name {
              assert !((b: BackupInfo) => b.name == name)(list[j]);
            }
          }
          return false;
        case Some(j) =>
          chosen := list[j];
      }
      assert chosen.name in NamesOf(list);
      trees := trees[sitePath := backups[chosen.name]];
      ok := true;
    }

    /**
     * Back up a live tree and roll straight back to the latest backup: when the new
     * backup is strictly the site's newest, the live tree is what it was.
     * `StagedIsNewest` gives a sufficient condition for a site without `_` in its name.
     */
    method RestoreAfterBackup(site: string, sitePath: string, timestamp: string) returns (ok: bool)
      modifies this
      requires sitePath in trees && site + "_" + timestamp !in backups
      requires NewestOf(backups[site + "_" + timestamp := trees[sitePath]], site, site + "_" + timestamp)
      ensures ok && trees == old(trees)
      ensures Retains(old(backups)[site + "_" + timestamp := old(trees)[sitePath]], backups, site, 5)
    {
      ghost var name := site + "_" + timestamp;
      ghost var staged := backups[name := trees[sitePath]];
      ghost var tree := trees[sitePath];
      var outcome := CreateBackup(site, sitePath, timestamp);
      assert name in backups && backups[name] == tree && NewestOf(backups, site, name) by {
        NewestSurvives(staged, backups, site, 5, name);
        assert Matching(backups, site) <= Matching(staged, site);
      }
      ok := Rollback(site, sitePath, None);
      ghost var latest :| Latest(backups, site, latest) && trees == old(trees)[sitePath := backups[latest]];
      LatestIsNewest(backups, site, name, latest);
    }
  }
}

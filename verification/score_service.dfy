/**
 * The high-score table of the backend `ScoreService`: a JSON file holding the best scores,
 * highest first. The file is modelled as a value (`None` when it is missing or unreadable,
 * which the service treats as an empty table); whether a write succeeds is a parameter.
 *
 * `Array.prototype.sort` is stable, so sorting by `b.score - a.score` orders the entries by
 * descending score and keeps entries of equal score in their stored order. `SortByScore` is
 * that sort, written as insertion of each entry, in turn, after every entry already placed
 * whose score is at least its own.
 */
module ScoreService {
  import opened Wrappers
  import opened Domain
  import Config
  import Text

  predicate SortedDesc(s: seq<UserScore>) {
    forall i, j :: 0 <= i < j < |s| ==> s[i].score >= s[j].score
  }

  /** The entries of `s` whose score is `v`, in order. */
  function WithScore(s: seq<UserScore>, v: int): (r: seq<UserScore>)
    ensures |r| <= |s|
    ensures forall i :: 0 <= i < |r| ==> r[i].score == v
  {
    if s == [] then []
    else (if s[0].score == v then [s[0]] else []) + WithScore(s[1..], v)
  }

  /** How many entries of `s` score at least `v`. */
  function CountAtLeast(s: seq<UserScore>, v: int): (n: nat)
    ensures n <= |s|
  {
    if s == [] then 0
    else (if s[0].score >= v then 1 else 0) + CountAtLeast(s[1..], v)
  }

  lemma {:induction false} WithScoreAppend(a: seq<UserScore>, b: seq<UserScore>, v: int)
    ensures WithScore(a + b, v) == WithScore(a, v) + WithScore(b, v)
  {
    if a != [] {
      assert (a + b)[1..] == a[1..] + b;
      WithScoreAppend(a[1..], b, v);
    } else {
      assert a + b == b;
    }
  }

  lemma {:induction false} CountAtLeastAppend(a: seq<UserScore>, b: seq<UserScore>, v: int)
    ensures CountAtLeast(a + b, v) == CountAtLeast(a, v) + CountAtLeast(b, v)
  {
    if a != [] {
      assert (a + b)[1..] == a[1..] + b;
      CountAtLeastAppend(a[1..], b, v);
    } else {
      assert a + b == b;
    }
  }

  /** Places `x` after every leading entry scoring at least `x.score`. */
  function InsertLast(t: seq<UserScore>, x: UserScore): (r: seq<UserScore>)
    ensures |r| == |t| + 1
  {
    if t == [] then [x]
    else if t[0].score < x.score then [x] + t
    else [t[0]] + InsertLast(t[1..], x)
  }

  /** `InsertLast` adds `x` and keeps every entry already there. */
  lemma {:induction false} InsertLastPermutes(t: seq<UserScore>, x: UserScore)
    ensures multiset(InsertLast(t, x)) == multiset(t) + multiset{x}
  {
    if t != [] && t[0].score >= x.score {
      InsertLastPermutes(t[1..], x);
      assert t == [t[0]] + t[1..];
      assert InsertLast(t, x) == [t[0]] + InsertLast(t[1..], x);
    }
  }

  lemma {:induction false} InsertLastBounded(t: seq<UserScore>, x: UserScore, b: int)
    requires forall i :: 0 <= i < |t| ==> t[i].score <= b
    requires x.score <= b
    ensures forall i :: 0 <= i < |t| + 1 ==> InsertLast(t, x)[i].score <= b
  {
    if t != [] && t[0].score >= x.score {
      InsertLastBounded(t[1..], x, b);
    }
  }

  lemma {:induction false} InsertLastSorted(t: seq<UserScore>, x: UserScore)
    requires SortedDesc(t)
    ensures SortedDesc(InsertLast(t, x))
  {
    if t != [] && t[0].score >= x.score {
      InsertLastSorted(t[1..], x);
      InsertLastBounded(t[1..], x, t[0].score);
    }
  }

  /** The stable descending sort of the table. */
  function SortByScore(s: seq<UserScore>): (r: seq<UserScore>)
    ensures SortedDesc(r)
    ensures multiset(r) == multiset(s)
    ensures |r| == |s|
  {
    if s == [] then []
    else
      var last := |s| - 1;
      assert s == s[..last] + [s[last]];
      InsertLastSorted(SortByScore(s[..last]), s[last]);
      InsertLastPermutes(SortByScore(s[..last]), s[last]);
      InsertLast(SortByScore(s[..last]), s[last])
  }

  /** In a sorted table, `InsertLast` puts `x` at index `CountAtLeast(t, x.score)`. */
  lemma {:induction false} InsertLastPosition(t: seq<UserScore>, x: UserScore)
    requires SortedDesc(t)
    ensures var k := CountAtLeast(t, x.score);
      InsertLast(t, x) == t[..k] + [x] + t[k..]
  {
    if t == [] {
      assert t[..0] + [x] + t[0..] == [x];
    } else if t[0].score < x.score {
      assert forall i :: 0 <= i < |t| ==> t[i].score <= t[0].score;
      NoneAtLeast(t, x.score);
      assert t[..0] + [x] + t[0..] == [x] + t;
    } else {
      SortedTail(t);
      InsertLastPosition(t[1..], x);
      InsertPastHeadPosition(t, x);
    }
  }

  /** When `x` goes past the head, its position is one behind its position in the tail. */
  lemma InsertPastHeadPosition(t: seq<UserScore>, x: UserScore)
    requires t != [] && t[0].score >= x.score
    requires var k := CountAtLeast(t[1..], x.score);
      InsertLast(t[1..], x) == t[1..][..k] + [x] + t[1..][k..]
    ensures var k := CountAtLeast(t, x.score);
      InsertLast(t, x) == t[..k] + [x] + t[k..]
  {
    var tail := t[1..];
    var k := CountAtLeast(tail, x.score);
    assert CountAtLeast(t, x.score) == k + 1;
    assert InsertLast(t, x) == [t[0]] + InsertLast(tail, x);
    ConsSlices(t, k);
    ConsInsert(t[0], tail[..k], x, tail[k..]);
  }

  lemma ConsSlices(t: seq<UserScore>, k: nat)
    requires k < |t|
    ensures t[..k + 1] == [t[0]] + t[1..][..k] && t[k + 1..] == t[1..][k..]
  {
  }

  lemma ConsInsert(h: UserScore, a: seq<UserScore>, x: UserScore, b: seq<UserScore>)
    ensures [h] + (a + [x] + b) == ([h] + a) + [x] + b
  {
  }

  lemma {:induction false} NoneAtLeast(t: seq<UserScore>, v: int)
    requires forall i :: 0 <= i < |t| ==> t[i].score < v
    ensures CountAtLeast(t, v) == 0
  {
    if t != [] {
      NoneAtLeast(t[1..], v);
    }
  }

  lemma {:induction false} InsertLastCount(t: seq<UserScore>, x: UserScore, v: int)
    ensures CountAtLeast(InsertLast(t, x), v) == CountAtLeast(t, v) + (if x.score >= v then 1 else 0)
  {
    if t != [] && t[0].score >= x.score {
      InsertLastCount(t[1..], x, v);
      assert InsertLast(t, x)[1..] == InsertLast(t[1..], x);
    }
  }

  /** `InsertLast` keeps `x` behind the equal-score entries already placed. */
  lemma {:induction false} InsertLastWithScore(t: seq<UserScore>, x: UserScore, v: int)
    requires SortedDesc(t)
    ensures WithScore(InsertLast(t, x), v) == WithScore(t, v) + (if x.score == v then [x] else [])
  {
    if t == [] {
      assert [x][1..] == [];
    } else if t[0].score < x.score {
      InsertFrontWithScore(t, x, v);
    } else {
      SortedTail(t);
      InsertLastWithScore(t[1..], x, v);
      InsertPastHeadWithScore(t, x, v);
    }
  }

  /** `x` goes in front of a table whose best score is lower: every entry scores below `x`. */
  lemma InsertFrontWithScore(t: seq<UserScore>, x: UserScore, v: int)
    requires SortedDesc(t) && t != [] && t[0].score < x.score
    ensures WithScore(InsertLast(t, x), v) == WithScore(t, v) + (if x.score == v then [x] else [])
  {
    if x.score == v {
      assert forall i :: 0 <= i < |t| ==> t[i].score <= t[0].score;
      NoneWithScore(t, v);
    }
    assert InsertLast(t, x) == [x] + t;
    assert ([x] + t)[1..] == t;
  }

  /** `x` goes past the head when the head scores at least as much: the head's share is kept. */
  lemma InsertPastHeadWithScore(t: seq<UserScore>, x: UserScore, v: int)
    requires t != [] && t[0].score >= x.score
    requires WithScore(InsertLast(t[1..], x), v) == WithScore(t[1..], v) + (if x.score == v then [x] else [])
    ensures WithScore(InsertLast(t, x), v) == WithScore(t, v) + (if x.score == v then [x] else [])
  {
    var own := if x.score == v then [x] else [];
    var head := if t[0].score == v then [t[0]] else [];
    var tail := t[1..];
    var rest := InsertLast(tail, x);
    var il := InsertLast(t, x);
    assert il == [t[0]] + rest;
    assert il != [] && il[0] == t[0] && il[1..] == rest;
    calc {
      WithScore(il, v);
      head + WithScore(rest, v);
      head + (WithScore(tail, v) + own);
      (head + WithScore(tail, v)) + own;
      { assert WithScore(t, v) == head + WithScore(tail, v); }
      WithScore(t, v) + own;
    }
  }

  lemma SortedTail(t: seq<UserScore>)
    requires t != [] && SortedDesc(t)
    ensures SortedDesc(t[1..])
  {
    forall i, j | 0 <= i < j < |t| - 1 ensures t[1..][i].score >= t[1..][j].score {
      assert t[1..][i] == t[i + 1] && t[1..][j] == t[j + 1];
    }
  }

  lemma {:induction false} NoneWithScore(t: seq<UserScore>, v: int)
    requires forall i :: 0 <= i < |t| ==> t[i].score < v
    ensures WithScore(t, v) == []
  {
    if t != [] {
      NoneWithScore(t[1..], v);
    }
  }

  /** Sorting counts the same entries at or above every score. */
  lemma {:induction false} SortKeepsCounts(s: seq<UserScore>, v: int)
    ensures CountAtLeast(SortByScore(s), v) == CountAtLeast(s, v)
  {
    if s != [] {
      var last := |s| - 1;
      var init, x := s[..last], s[last];
      var own := if x.score >= v then 1 else 0;
      calc {
        CountAtLeast(SortByScore(s), v);
        CountAtLeast(InsertLast(SortByScore(init), x), v);
        { InsertLastCount(SortByScore(init), x, v); }
        CountAtLeast(SortByScore(init), v) + own;
        { SortKeepsCounts(init, v); }
        CountAtLeast(init, v) + own;
        { CountAtLeastAppend(init, [x], v); assert [x][1..] == []; }
        CountAtLeast(init + [x], v);
        { assert init + [x] == s; }
        CountAtLeast(s, v);
      }
    }
  }

  /** The sort is stable: the entries of any one score keep their stored order. */
  lemma {:induction false} SortIsStable(s: seq<UserScore>, v: int)
    ensures WithScore(SortByScore(s), v) == WithScore(s, v)
  {
    if s != [] {
      var last := |s| - 1;
      var init, x := s[..last], s[last];
      var own := if x.score == v then [x] else [];
      calc {
        WithScore(SortByScore(s), v);
        WithScore(InsertLast(SortByScore(init), x), v);
        { InsertLastWithScore(SortByScore(init), x, v); }
        WithScore(SortByScore(init), v) + own;
        { SortIsStable(init, v); }
        WithScore(init, v) + own;
        { WithScoreAppend(init, [x], v); assert WithScore([x], v) == own; }
        WithScore(init + [x], v);
        { assert init + [x] == s; }
        WithScore(s, v);
      }
    }
  }

  /** Sorting a table with a new entry appended puts the new entry behind every stored entry
      scoring at least as much, and leaves the stored entries in their sorted order. */
  lemma NewEntryRank(scores: seq<UserScore>, entry: UserScore)
    ensures var t := SortByScore(scores);
      var k := CountAtLeast(scores, entry.score);
      SortByScore(scores + [entry]) == t[..k] + [entry] + t[k..]
  {
    assert (scores + [entry])[..|scores|] == scores;
    SortKeepsCounts(scores, entry.score);
    InsertLastPosition(SortByScore(scores), entry);
  }

  /** The first `n` entries (`slice(0, n)` with `n >= 0`). */
  function Take(s: seq<UserScore>, n: nat): (r: seq<UserScore>)
    ensures |r| == if |s| <= n then |s| else n
    ensures r == s[..|r|]
  {
    if |s| <= n then s else s[..n]
  }

  /** `slice(0, end)`: a negative `end` counts back from the end of the table. */
  function SliceTo(s: seq<UserScore>, end: int): (r: seq<UserScore>)
    ensures end >= 0 ==> r == Take(s, end)
    ensures end < 0 ==> |r| == if |s| + end < 0 then 0 else |s| + end
    ensures r == s[..|r|]
  {
    if end >= 0 then Take(s, end)
    else if |s| + end < 0 then []
    else s[..|s| + end]
  }

  /** The table `saveScore` writes: the stored entries plus the new one, sorted, cut to the
      best `MAX_HIGH_SCORES`. It is sorted, at most 100 long, one longer than before while
      there is room, and holds nothing but stored entries and the new one. */
  function SavedTable(scores: seq<UserScore>, entry: UserScore): (r: seq<UserScore>)
    ensures SortedDesc(r)
    ensures |r| == if |scores| < Config.MAX_HIGH_SCORES then |scores| + 1 else Config.MAX_HIGH_SCORES
    ensures multiset(r) <= multiset(scores) + multiset{entry}
  {
    var full := SortByScore(scores + [entry]);
    var r := Take(full, Config.MAX_HIGH_SCORES);
    assert full == r + full[|r|..];
    assert multiset(full) == multiset(r) + multiset(full[|r|..]);
    r
  }

  /** Where the new entry lands: behind every stored entry scoring at least as much. It is
      kept exactly when fewer than 100 such entries exist, with the entries ahead of it
      unchanged; otherwise the written table is the best 100 of the old one. */
  lemma NewEntryKeptIffRoom(scores: seq<UserScore>, entry: UserScore)
    ensures var r := SavedTable(scores, entry);
      var t := SortByScore(scores);
      var k := CountAtLeast(scores, entry.score);
      && (k < Config.MAX_HIGH_SCORES ==> r[k] == entry && r[..k] == t[..k])
      && (k >= Config.MAX_HIGH_SCORES ==> r == Take(t, Config.MAX_HIGH_SCORES))
  {
    var full := SortByScore(scores + [entry]);
    var t := SortByScore(scores);
    var k := CountAtLeast(scores, entry.score);
    NewEntryRank(scores, entry);
    var r := SavedTable(scores, entry);
    var n := |r|;
    assert r == full[..n];
    if k < Config.MAX_HIGH_SCORES {
      InsertedPrefix(t, entry, k, n);
    } else {
      InsertedPrefix(t, entry, k, Config.MAX_HIGH_SCORES);
    }
  }

  lemma InsertedPrefix<T>(t: seq<T>, e: T, k: nat, n: nat)
    requires k <= |t| && n <= |t| + 1
    ensures var s := t[..k] + [e] + t[k..];
      && (k < n ==> s[..n][k] == e && s[..n][..k] == t[..k])
      && (n <= k ==> s[..n] == t[..n])
  {
  }

  /** How a `writeFile` of the table ended. The file is opened for writing with truncation
      before any data goes out, so a write that fails after the open leaves a file that is
      empty or cut short, which `loadScores` then cannot parse. */
  datatype WriteOutcome = Written | FailedUntouched | FailedTruncated

  /** The file after a write of `table` with the given outcome. */
  function AfterWrite(before: Option<seq<UserScore>>, table: seq<UserScore>, write: WriteOutcome): (after: Option<seq<UserScore>>)
    ensures write.Written? ==> after == Some(table)
    ensures write.FailedUntouched? ==> after == before
    ensures write.FailedTruncated? ==> after.None?
  {
    match write
    case Written => Some(table)
    case FailedUntouched => before
    case FailedTruncated => None
  }

  class ScoreStore {
    /** The file's content; `None` when it is missing or cannot be parsed. */
    var file: Option<seq<UserScore>>

    constructor (file: Option<seq<UserScore>>)
      ensures this.file == file
    {
      this.file := file;
    }

    /** `loadScores`: the stored table, or empty when the file cannot be read. */
    function Loaded(): (s: seq<UserScore>)
      reads this
      ensures file.None? ==> s == []
      ensures file.Some? ==> s == file.value
    {
      file.GetOr([])
    }

    /** `saveScore`: builds the entry from the trimmed name and writes the new table; a
        failed write reports `DatabaseError`, and the file is then either as it was or, when
        the failure came after truncation, unreadable. */
    method SaveScore(name: string, score: int, id: string, date: string, write: WriteOutcome)
      returns (r: Result<UserScore, AppError>)
      modifies this
      ensures var entry := UserScore(id, Text.Trim(name), score, date);
        file == AfterWrite(old(file), SavedTable(old(Loaded()), entry), write)
        && r == if write.Written? then Ok(entry) else Err(DatabaseError(Config.SAVE_FAILED_MESSAGE))
      ensures write.Written? ==> Loaded() == SavedTable(old(Loaded()), UserScore(id, Text.Trim(name), score, date))
      ensures write.FailedTruncated? ==> Loaded() == []
    {
      var scores := Loaded();
      var entry := UserScore(id, Text.Trim(name), score, date);
      var top := SavedTable(scores, entry);
      file := AfterWrite(file, top, write);
      if !write.Written? {
        return Err(DatabaseError(Config.SAVE_FAILED_MESSAGE));
      }
      r := Ok(entry);
    }

    /** `getHighScores`: the stored table sorted, sliced to `limit` (10 when omitted). */
    method GetHighScores(limit: Option<int>) returns (r: seq<UserScore>)
      ensures r == SliceTo(SortByScore(Loaded()), limit.GetOr(Config.DEFAULT_HIGH_SCORES_DISPLAY))
      ensures SortedDesc(r)
      ensures limit.None? ==> |r| == if |Loaded()| < 10 then |Loaded()| else 10
    {
      var scores := SortByScore(Loaded());
      r := SliceTo(scores, limit.GetOr(Config.DEFAULT_HIGH_SCORES_DISPLAY));
    }

    /** `getScoreCount`. */
    method GetScoreCount() returns (n: nat)
      ensures n == |Loaded()|
    {
      n := |Loaded()|;
    }

    /** `clearScores`: writes an empty table; reports whether the write succeeded. Either
        way of failing the write can still leave the table empty to readers. */
    method ClearScores(write: WriteOutcome) returns (ok: bool)
      modifies this
      ensures ok == write.Written?
      ensures file == AfterWrite(old(file), [], write)
      ensures !write.FailedUntouched? ==> Loaded() == []
    {
      file := AfterWrite(file, [], write);
      ok := write.Written?;
    }
  }
}

/**
 * The fixed-window rate limiter: one row of `auth_limits` per key, upserted on every call.
 * Times are integers (any unit) supplied by the caller in place of the database clock.
 */
module RateLimiter {
  import opened Finite

  datatype Row = Row(count: nat, resetAt: int)

  datatype Call = Call(key: string, max: nat, window: nat, now: int)

  /** The row a call leaves behind. */
  function Hit(rows: map<string, Row>, c: Call): Row {
    if c.key in rows && c.now <= rows[c.key].resetAt
    then Row(rows[c.key].count + 1, rows[c.key].resetAt)
    else Row(1, c.now + c.window)
  }

  class AuthLimits {
    var rows: map<string, Row>

    constructor ()
      ensures rows == map[]
    {
      rows := map[];
    }

    /** Counts one call; the answer is whether it is still within the allowance. */
    method RateLimit(key: string, max: nat, window: nat, now: int) returns (ok: bool)
      modifies this
      ensures rows == old(rows)[key := Hit(old(rows), Call(key, max, window, now))]
      ensures ok <==> rows[key].count <= max
    {
      var count, resetAt := 1, now + window;
      if key in rows {
        var row := rows[key];
        if !(row.resetAt < now) {
          count, resetAt := row.count + 1, row.resetAt;
        }
      }
      rows := rows[key := Row(count, resetAt)];
      ok := count <= max;
    }
  }

  /** The table after a sequence of calls on any keys, starting empty. */
  ghost function After(calls: seq<Call>): map<string, Row> {
    if calls == [] then map[] else
      var before := After(calls[..|calls| - 1]);
      var c := calls[|calls| - 1];
      before[c.key := Hit(before, c)]
  }

  /** The row call i saw returned. */
  ghost function RowAt(calls: seq<Call>, i: nat): Row
    requires i < |calls|
  {
    Hit(After(calls[..i]), calls[i])
  }

  ghost predicate Admitted(calls: seq<Call>, i: nat)
    requires i < |calls|
  {
    RowAt(calls, i).count <= calls[i].max
  }

  /** One key is always limited by the same allowance and window, and its clock does not run back. */
  ghost predicate Uniform(calls: seq<Call>, key: string, max: nat, window: nat) {
    && (forall i :: 0 <= i < |calls| && calls[i].key == key ==> calls[i].max == max && calls[i].window == window)
    && (forall i, j :: 0 <= i < j < |calls| && calls[i].key == key && calls[j].key == key ==>
        calls[i].now <= calls[j].now)
  }

  /** The key's row is the one its most recent call was handed. */
  lemma {:induction false} LastCall(calls: seq<Call>, key: string) returns (i: nat)
    requires key in After(calls)
    ensures i < |calls| && calls[i].key == key
    ensures forall k :: i < k < |calls| ==> calls[k].key != key
    ensures After(calls)[key] == RowAt(calls, i)
  {
    var n := |calls| - 1;
    if calls[n].key == key {
      i := n;
    } else {
      i := LastCall(calls[..n], key);
      assert calls[..n][..i] == calls[..i];
    }
  }

  lemma {:induction false} KeyIsPresent(calls: seq<Call>, i: nat)
    requires i < |calls|
    ensures calls[i].key in After(calls)
  {
    if i < |calls| - 1 {
      KeyIsPresent(calls[..|calls| - 1], i);
    }
  }

  // ------------------------------------------------------------------ windows, told by the calls alone

  /** The last call on a key among the first n. */
  ghost function Last(calls: seq<Call>, key: string, n: nat): int
    requires n <= |calls|
    ensures -1 <= Last(calls, key, n) < n
    ensures Last(calls, key, n) >= 0 ==> calls[Last(calls, key, n)].key == key
    ensures forall k :: Last(calls, key, n) < k < n ==> calls[k].key != key
  {
    if n == 0 then -1 else if calls[n - 1].key == key then n - 1 else Last(calls, key, n - 1)
  }

  /**
   * The call that opened the window of call j: the one that opened the window of the key's call
   * before, if j is no later than that window is long, and otherwise j itself.
   */
  ghost function Opener(calls: seq<Call>, j: nat): (o: nat)
    requires j < |calls|
    ensures o <= j && calls[o].key == calls[j].key
    decreases j
  {
    var before := Last(calls, calls[j].key, j);
    if before < 0 then j else
      var o := Opener(calls, before);
      if calls[j].now <= calls[o].now + calls[o].window then o else j
  }

  /** The calls on j's key in j's window, before j. */
  ghost function Earlier(calls: seq<Call>, j: nat): set<int>
    requires j < |calls|
  {
    set k | Opener(calls, j) <= k < j && calls[k].key == calls[j].key
  }

  lemma {:induction false} LastIsFound(calls: seq<Call>, key: string, n: nat)
    requires n <= |calls|
    ensures key in After(calls[..n]) <==> Last(calls, key, n) >= 0
    ensures Last(calls, key, n) >= 0 ==> After(calls[..n])[key] == RowAt(calls, Last(calls, key, n))
    decreases n
  {
    if n > 0 {
      assert calls[..n][..n - 1] == calls[..n - 1];
      LastIsFound(calls, key, n - 1);
    }
  }

  /**
   * The row of a call says exactly how many calls of the key its window has seen, and when the window
   * that its first call opened ends. Nothing is assumed of the calls.
   */
  lemma {:induction false} CountsExactly(calls: seq<Call>, j: nat)
    requires j < |calls|
    ensures var o := Opener(calls, j);
            RowAt(calls, j) == Row(|Earlier(calls, j)| + 1, calls[o].now + calls[o].window)
    decreases j
  {
    var key, before := calls[j].key, Last(calls, calls[j].key, j);
    LastIsFound(calls, key, j);
    EarlierSteps(calls, j);
    if before >= 0 {
      CountsExactly(calls, before);
    }
    hide After, Earlier, Last;
  }

  /** A window that goes on has seen one call more; one that opens has seen none. */
  lemma {:induction false} EarlierSteps(calls: seq<Call>, j: nat)
    requires j < |calls|
    ensures var before := Last(calls, calls[j].key, j);
            && (Opener(calls, j) == j ==> |Earlier(calls, j)| == 0)
            && (Opener(calls, j) != j ==>
                  before >= 0 && Opener(calls, j) == Opener(calls, before)
                  && |Earlier(calls, j)| == |Earlier(calls, before)| + 1)
  {
    var before := Last(calls, calls[j].key, j);
    if Opener(calls, j) == j {
      assert Earlier(calls, j) == {};
    } else {
      assert Earlier(calls, j) == Earlier(calls, before) + {before};
    }
  }

  /** A call opens a window if and only if it is its key's first or comes after the last one's window ended. */
  lemma {:induction false} OpensExactly(calls: seq<Call>, j: nat)
    requires j < |calls|
    ensures var before := Last(calls, calls[j].key, j);
            && (Opener(calls, j) == j <==> before < 0 || RowAt(calls, before).resetAt < calls[j].now)
            && (Opener(calls, j) == j <==> RowAt(calls, j).count == 1)
  {
    CountsExactly(calls, j);
    var before := Last(calls, calls[j].key, j);
    if before >= 0 {
      CountsExactly(calls, before);
      if Opener(calls, j) != j {
        assert before in Earlier(calls, j);
      }
    }
    if Opener(calls, j) == j {
      assert Earlier(calls, j) == {};
    }
  }

  /** A call is admitted if and only if fewer calls of its key precede it in its window than it allows. */
  lemma {:induction false} AdmittedExactly(calls: seq<Call>, j: nat)
    requires j < |calls|
    ensures Admitted(calls, j) <==> |Earlier(calls, j)| < calls[j].max
  {
    CountsExactly(calls, j);
  }

  /** Every call falls within its window, and the call numbered 1 is the one that opened it. */
  lemma {:induction false} WithinWindow(calls: seq<Call>, key: string, max: nat, window: nat, j: nat)
    requires Uniform(calls, key, max, window)
    requires j < |calls| && calls[j].key == key
    ensures var r := RowAt(calls, j); 1 <= r.count && r.resetAt - window <= calls[j].now <= r.resetAt
    ensures RowAt(calls, j).count == 1 ==> calls[j].now == RowAt(calls, j).resetAt - window
    decreases j
  {
    if key in After(calls[..j]) {
      var i := LastCall(calls[..j], key);
      assert calls[..j][..i] == calls[..i];
      WithinWindow(calls, key, max, window, i);
    }
  }

  /** Later calls are numbered higher within a window, or belong to one that opened after it ended. */
  lemma {:induction false} Progress(calls: seq<Call>, key: string, max: nat, window: nat, i: nat, j: nat)
    requires Uniform(calls, key, max, window)
    requires i < j < |calls| && calls[i].key == key && calls[j].key == key
    ensures var a, b := RowAt(calls, i), RowAt(calls, j);
            (a.resetAt == b.resetAt && a.count < b.count) || a.resetAt + window < b.resetAt
    decreases j
  {
    assert calls[..j][i].key == key;
    KeyIsPresent(calls[..j], i);
    var k := LastCall(calls[..j], key);
    assert calls[..j][..k] == calls[..k];
    assert i <= k;
    if i < k {
      Progress(calls, key, max, window, i, k);
    }
  }

  /** The admitted calls on a key whose time lies in the closed interval [t, t + window]. */
  ghost function AdmittedIn(calls: seq<Call>, key: string, t: int, window: nat): set<int> {
    set i | 0 <= i < |calls| && calls[i].key == key && t <= calls[i].now <= t + window && Admitted(calls, i)
  }

  /** The admitted calls counted in the window that ends at resetAt. */
  ghost function AdmittedUntil(calls: seq<Call>, key: string, resetAt: int): set<int> {
    set i | 0 <= i < |calls| && calls[i].key == key && RowAt(calls, i).resetAt == resetAt && Admitted(calls, i)
  }

  /** A window admits at most `max` calls. */
  lemma {:induction false} WindowBound(calls: seq<Call>, key: string, max: nat, window: nat, resetAt: int)
    requires Uniform(calls, key, max, window)
    ensures |AdmittedUntil(calls, key, resetAt)| <= max
  {
    var s := AdmittedUntil(calls, key, resetAt);
    var code := map i | i in s :: RowAt(calls, i).count;
    forall i, j | i in s && j in s && i != j
      ensures code[i] != code[j] && 1 <= code[i] <= max
    {
      WithinWindow(calls, key, max, window, i);
      if i < j {
        Progress(calls, key, max, window, i, j);
      } else {
        Progress(calls, key, max, window, j, i);
      }
    }
    forall i | i in s ensures 1 <= code[i] < max + 1 {
      WithinWindow(calls, key, max, window, i);
    }
    assert code.Keys == s;
    InjectiveSize(code, 1, max + 1);
  }

  /** A number for each admitted call of an interval, by its place in its window and by its window. */
  ghost function Code(calls: seq<Call>, max: nat, first: nat, i: nat): int
    requires first < |calls| && i < |calls|
  {
    RowAt(calls, i).count + (if RowAt(calls, i).resetAt == RowAt(calls, first).resetAt then 0 else max)
  }

  lemma {:induction false} CodeIsInRange(
      calls: seq<Call>, key: string, max: nat, window: nat, t: int, first: nat, i: nat)
    requires Uniform(calls, key, max, window) && first <= i
    requires var s := AdmittedIn(calls, key, t, window); first in s && i in s
    ensures 1 <= Code(calls, max, first, i) <= 2 * max
    ensures RowAt(calls, i).resetAt == RowAt(calls, first).resetAt ==> Code(calls, max, first, i) <= max
  {
    WithinWindow(calls, key, max, window, i);
  }

  /** When a later window meets the interval, the call that opened the first one is not in it. */
  lemma {:induction false} OpenerIsOutside(
      calls: seq<Call>, key: string, max: nat, window: nat, t: int, first: nat, i: nat, later: nat)
    requires Uniform(calls, key, max, window) && first <= i && first <= later
    requires var s := AdmittedIn(calls, key, t, window); first in s && i in s && later in s
    requires RowAt(calls, later).resetAt != RowAt(calls, first).resetAt
    ensures 2 <= Code(calls, max, first, i)
  {
    WithinWindow(calls, key, max, window, i);
    WithinWindow(calls, key, max, window, later);
    Progress(calls, key, max, window, first, later);
  }

  lemma {:induction false} CodesDiffer(
      calls: seq<Call>, key: string, max: nat, window: nat, t: int, first: nat, i: nat, j: nat)
    requires Uniform(calls, key, max, window) && first <= i < j
    requires var s := AdmittedIn(calls, key, t, window); first in s && i in s && j in s
    ensures Code(calls, max, first, i) != Code(calls, max, first, j)
  {
    Progress(calls, key, max, window, i, j);
    WithinWindow(calls, key, max, window, first);
    WithinWindow(calls, key, max, window, i);
    WithinWindow(calls, key, max, window, j);
    if first < i {
      Progress(calls, key, max, window, first, i);
    }
  }

  /**
   * Any closed interval as long as the window admits at most 2 * max - 1 calls: at most two
   * windows meet it, and when two do, the call that opened the earlier one came before it.
   */
  lemma {:induction false} SlidingBound(calls: seq<Call>, key: string, max: nat, window: nat, t: int)
    requires Uniform(calls, key, max, window)
    ensures |AdmittedIn(calls, key, t, window)| <= if max == 0 then 0 else 2 * max - 1
  {
    hide Uniform, Admitted, RowAt;
    var s := AdmittedIn(calls, key, t, window);
    if x :| x in s {
      var first := Least(s, x);
      CodeIsInRange(calls, key, max, window, t, first, first);
      var code := map i | i in s :: Code(calls, max, first, i);
      assert code.Keys == s;
      CodesAreInjective(calls, key, max, window, t, first, code);
      if later :| later in s && RowAt(calls, later).resetAt != RowAt(calls, first).resetAt {
        forall i | i in code ensures 2 <= code[i] < 2 * max + 1 {
          CodeIsInRange(calls, key, max, window, t, first, i);
          OpenerIsOutside(calls, key, max, window, t, first, i, later);
        }
        InjectiveSize(code, 2, 2 * max + 1);
      } else {
        forall i | i in code ensures 1 <= code[i] < max + 1 {
          CodeIsInRange(calls, key, max, window, t, first, i);
        }
        InjectiveSize(code, 1, max + 1);
      }
    } else {
      assert s == {};
    }
  }

  lemma {:induction false} CodesAreInjective(
      calls: seq<Call>, key: string, max: nat, window: nat, t: int, first: nat, code: map<int, int>)
    requires Uniform(calls, key, max, window)
    requires var s := AdmittedIn(calls, key, t, window);
             code.Keys == s && first in s && forall i :: i in s ==> first <= i
    requires forall i :: i in code ==> code[i] == Code(calls, max, first, i)
    ensures Injective(code)
  {
    hide Uniform, Admitted, RowAt, Code;
    forall i, j | i in code && j in code ensures code[i] == code[j] ==> i == j {
      if i < j {
        CodesDiffer(calls, key, max, window, t, first, i, j);
      } else if j < i {
        CodesDiffer(calls, key, max, window, t, first, j, i);
      }
    }
  }

  lemma {:induction false} Least(s: set<int>, x: int) returns (m: int)
    requires x in s
    ensures m in s && forall i :: i in s ==> m <= i
  {
    m := x;
    if y :| y in s && y < x {
      m := Least(s - {x}, y);
      assert forall i :: i in s ==> i == x || i in s - {x};
    }
  }

  /** `max` calls spread over the end of one window and the start of the next. */
  ghost function Burst(key: string, max: nat, window: nat): seq<Call> {
    seq(2 * max, k => Call(key, max, window, if k == 0 then 0 else if k < max then window else window + 1))
  }

  lemma {:induction false} BurstRow(key: string, max: nat, window: nat, k: nat)
    requires k < 2 * max
    ensures RowAt(Burst(key, max, window), k) == if k < max then Row(k + 1, window)
        else Row(k + 1 - max, 2 * window + 1)
  {
    var calls := Burst(key, max, window);
    if k > 0 {
      BurstRow(key, max, window, k - 1);
      assert calls[..k][..k - 1] == calls[..k - 1];
      assert After(calls[..k])[key] == RowAt(calls, k - 1);
    }
  }

  /** The sliding bound is exact: for every allowance there is a burst that reaches it. */
  lemma {:induction false} SlidingBoundIsReached(key: string, max: nat, window: nat)
    requires max > 0 && window > 0
    ensures var calls := Burst(key, max, window);
            Uniform(calls, key, max, window) && |AdmittedIn(calls, key, window, window)| == 2 * max - 1
  {
    var calls := Burst(key, max, window);
    var s := AdmittedIn(calls, key, window, window);
    var r := Range(1, 2 * max);
    assert |r| == 2 * max - 1 by { RangeSize(1, 2 * max); }
    assert s == r by {
      forall k ensures k in s <==> k in r {
        if 0 <= k < 2 * max {
          BurstRow(key, max, window, k);
        }
      }
    }
  }
}

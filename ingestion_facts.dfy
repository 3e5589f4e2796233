/** What the ingestion loop promises, proved about its specification `Run`:
    where each window starts, when the loop stops, what is pushed, how many
    reads a stable backend costs, and which ticket positions are ever read. */
module IngestionFacts {
  import opened Ingestion

  /** `a ≤ b` survives multiplication by a non-negative factor. */
  lemma {:induction false} MulMonotone(a: int, b: int, c: nat)
    requires a <= b
    ensures a * c <= b * c
  {
    if c > 0 {
      MulMonotone(a, b, c - 1);
      assert a * c == a * (c - 1) + a;
      assert b * c == b * (c - 1) + b;
    }
  }

  /** Reply `n` ends the loop whose n-th window starts at `1 + n·chunkSize`:
      the read threw, the push threw, or the reported total is at most the
      pre-increment `startFrom` plus `chunkSize`. */
  predicate EndsAt(b: Backend, chunkSize: int, n: nat) {
    match b.answer(n)
    case Throws => true
    case Returns(page) => !b.accepts(n) || page.nMatches <= 1 + n * chunkSize + chunkSize
  }

  /** The exception the loop catches when it ends at reply `n`. */
  function CaughtAt(b: Backend, n: nat): Option<Failure> {
    match b.answer(n)
    case Throws => Some(ReadFailed)
    case Returns(_) => if b.accepts(n) then None else Some(PushFailed)
  }

  /** Position `p` (1-based) lies in the window read by query `q`. */
  predicate Covers(q: Query, p: int) {
    q.startFrom <= p < q.startFrom + q.chunkSize
  }

  /** Every read returns the same total `M` and every push succeeds. */
  ghost predicate Steady(b: Backend, m: int) {
    forall k: nat :: b.answer(k).Returns? && b.answer(k).value.nMatches == m && b.accepts(k)
  }

  lemma {:induction false} LoopWindows(form: Form, b: Backend, chunkSize: int, startFrom: int, n: nat, k: nat)
    requires chunkSize >= 1 && k < |Loop(form, b, chunkSize, startFrom, n).fetches|
    ensures Loop(form, b, chunkSize, startFrom, n).fetches[k] == Query(form, startFrom + k * chunkSize, chunkSize)
    decreases k
  {
    if k > 0 {
      LoopWindows(form, b, chunkSize, startFrom + chunkSize, n + 1, k - 1);
      assert startFrom + chunkSize + (k - 1) * chunkSize == startFrom + k * chunkSize;
    }
  }

  /** The k-th read (from 0) asks for the window starting at `1 + k·chunkSize`
      with the fixed `chunkSize`; windows are increasing and do not overlap. */
  lemma RunWindows(form: Form, b: Backend, chunkSize: int)
    requires chunkSize >= 1
    ensures var f := Run(form, b, chunkSize).fetches;
            (forall k :: 0 <= k < |f| ==> f[k] == Query(form, 1 + k * chunkSize, chunkSize)) &&
            (forall i, j :: 0 <= i < j < |f| ==> f[i].startFrom + f[i].chunkSize <= f[j].startFrom)
  {
    var f := Run(form, b, chunkSize).fetches;
    forall k | 0 <= k < |f| ensures f[k] == Query(form, 1 + k * chunkSize, chunkSize) {
      LoopWindows(form, b, chunkSize, 1, 0, k);
    }
    forall i, j | 0 <= i < j < |f| ensures f[i].startFrom + f[i].chunkSize <= f[j].startFrom {
      MulMonotone(i + 1, j, chunkSize);
      assert (i + 1) * chunkSize == i * chunkSize + chunkSize;
    }
  }

  lemma {:induction false} LoopStopRule(form: Form, b: Backend, chunkSize: int, n: nat)
    requires chunkSize >= 1
    ensures var t := Loop(form, b, chunkSize, 1 + n * chunkSize, n);
            EndsAt(b, chunkSize, n + |t.fetches| - 1) &&
            t.caught == CaughtAt(b, n + |t.fetches| - 1) &&
            forall j :: n <= j < n + |t.fetches| - 1 ==> !EndsAt(b, chunkSize, j)
    decreases INT_MAX - (1 + n * chunkSize)
  {
    var s := 1 + n * chunkSize;
    assert s + chunkSize == 1 + (n + 1) * chunkSize;
    match b.answer(n)
    case Throws =>
    case Returns(page) =>
      if b.accepts(n) && page.nMatches > s + chunkSize {
        LoopStopRule(form, b, chunkSize, n + 1);
      }
  }

  /** The stop rule: the loop ends at the first reply that throws, whose push
      throws, or whose total is at most the pre-increment `startFrom + chunkSize`;
      every earlier reply let it go on. The exception caught is the one of that reply. */
  lemma StopRule(form: Form, b: Backend, chunkSize: int)
    requires chunkSize >= 1 && b.login.Returns?
    ensures var t := Run(form, b, chunkSize);
            EndsAt(b, chunkSize, |t.fetches| - 1) &&
            t.caught == CaughtAt(b, |t.fetches| - 1) &&
            forall j :: 0 <= j < |t.fetches| - 1 ==> !EndsAt(b, chunkSize, j)
  {
    LoopStopRule(form, b, chunkSize, 0);
  }

  /** If reply `k` is the first that ends the loop, exactly `k + 1` reads are
      issued; a failed read on it means only the `k` earlier pages were pushed,
      a failed push means no further read follows. */
  lemma FirstEndIsLast(form: Form, b: Backend, chunkSize: int, k: nat)
    requires chunkSize >= 1 && b.login.Returns?
    requires EndsAt(b, chunkSize, k) && forall j :: 0 <= j < k ==> !EndsAt(b, chunkSize, j)
    ensures var t := Run(form, b, chunkSize);
            |t.fetches| == k + 1 && t.caught == CaughtAt(b, k) &&
            |t.pushes| == if b.answer(k).Throws? then k else k + 1
  {
    StopRule(form, b, chunkSize);
  }

  lemma {:induction false} LoopPushes(form: Form, b: Backend, chunkSize: int, startFrom: int, n: nat)
    requires chunkSize >= 1
    ensures var t := Loop(form, b, chunkSize, startFrom, n);
            forall i :: n <= i < n + |t.pushes| ==> b.answer(i).Returns? && t.pushes[i - n] == b.answer(i).value.events
    decreases INT_MAX - startFrom
  {
    match b.answer(n)
    case Throws =>
    case Returns(page) =>
      if b.accepts(n) && page.nMatches > startFrom + chunkSize {
        LoopPushes(form, b, chunkSize, startFrom + chunkSize, n + 1);
        var t := Loop(form, b, chunkSize, startFrom, n);
        var rest := Loop(form, b, chunkSize, startFrom + chunkSize, n + 1);
        assert t.pushes == [page.events] + rest.pushes;
        forall i | n < i < n + |t.pushes|
          ensures b.answer(i).Returns? && t.pushes[i - n] == b.answer(i).value.events
        {
          assert t.pushes[i - n] == rest.pushes[i - (n + 1)];
        }
      }
  }

  /** Every page read successfully is pushed once, in read order: the i-th
      push carries the events of the i-th reply, and every reply that was a
      page has its push. */
  lemma PushesAreReadPages(form: Form, b: Backend, chunkSize: int)
    requires chunkSize >= 1
    ensures var t := Run(form, b, chunkSize);
            (forall i :: 0 <= i < |t.pushes| ==> b.answer(i).Returns? && t.pushes[i] == b.answer(i).value.events) &&
            (forall i :: 0 <= i < |t.fetches| && b.answer(i).Returns? ==> i < |t.pushes|)
  {
    if b.login.Returns? {
      StopRule(form, b, chunkSize);
      var pushes := Loop(form, b, chunkSize, 1, 0).pushes;
      assert Run(form, b, chunkSize).pushes == pushes;
      LoopPushes(form, b, chunkSize, 1, 0);
      forall i | 0 <= i < |pushes| ensures b.answer(i).Returns? && pushes[i] == b.answer(i).value.events {
        assert pushes[i - 0] == pushes[i];
      }
    }
  }

  /** With a stable total `m` and no failures, the number of reads `K` is the
      least `K ≥ 1` with `m ≤ 1 + K·chunkSize`, and every page is pushed. */
  lemma SteadyReadCount(form: Form, b: Backend, chunkSize: int, m: int)
    requires chunkSize >= 1 && b.login.Returns? && Steady(b, m)
    ensures var t := Run(form, b, chunkSize);
            var k := |t.fetches|;
            t.caught == None && |t.pushes| == k &&
            m <= 1 + k * chunkSize &&
            forall j :: 1 <= j < k ==> 1 + j * chunkSize < m
  {
    var t := Run(form, b, chunkSize);
    var k := |t.fetches|;
    StopRule(form, b, chunkSize);
    assert b.answer(k - 1).Returns? && b.accepts(k - 1);
    assert 1 + (k - 1) * chunkSize + chunkSize == 1 + k * chunkSize;
    forall j | 1 <= j < k ensures 1 + j * chunkSize < m {
      assert !EndsAt(b, chunkSize, j - 1);
      assert b.answer(j - 1).Returns? && b.accepts(j - 1);
      assert 1 + (j - 1) * chunkSize + chunkSize == 1 + j * chunkSize;
    }
  }

  /** A total of zero, or any total that the first window reaches, costs one read. */
  lemma SmallTotalOneRead(form: Form, b: Backend, chunkSize: int, m: int)
    requires chunkSize >= 1 && b.login.Returns? && Steady(b, m) && m <= 1 + chunkSize
    ensures var t := Run(form, b, chunkSize);
            t.fetches == [Query(form, 1, chunkSize)] && |t.pushes| == 1 && t.caught == None
  {
    SteadyReadCount(form, b, chunkSize, m);
  }

  /** 120 matches in chunks of 50 are read as the windows 1, 51 and 101. */
  lemma ThreeWindowsFor120By50(form: Form, b: Backend)
    requires b.login.Returns? && Steady(b, 120)
    ensures Run(form, b, 50).fetches == [Query(form, 1, 50), Query(form, 51, 50), Query(form, 101, 50)]
  {
    SteadyReadCount(form, b, 50, 120);
    RunWindows(form, b, 50);
    var f := Run(form, b, 50).fetches;
    assert 3 < |f| ==> 1 + 3 * 50 < 120;
    assert |f| <= 2 ==> |f| * 50 <= 100;
    assert f == [f[0], f[1], f[2]];
  }

  /** A position in window `i` of `k` windows of `c` from 1 lies in `1 .. k·c`. */
  lemma WindowInRange(i: nat, k: nat, c: int, p: int)
    requires c >= 1 && i < k && 1 + i * c <= p < 1 + i * c + c
    ensures 1 <= p <= k * c
  {
    MulMonotone(i + 1, k, c);
    assert (i + 1) * c == i * c + c;
  }

  /** A position in `1 .. k·c` lies in window `(p - 1) / c`, one of the `k`. */
  lemma RangeInWindow(k: nat, c: int, p: int)
    requires c >= 1 && 1 <= p <= k * c
    ensures var i := (p - 1) / c; 0 <= i < k && 1 + i * c <= p < 1 + i * c + c
  {
    var i := (p - 1) / c;
    assert p - 1 == i * c + (p - 1) % c;
    if i >= k {
      MulMonotone(k, i, c);
      assert false;
    }
  }

  lemma CoveredIsInRange(form: Form, b: Backend, chunkSize: int, p: int, i: nat)
    requires chunkSize >= 1
    requires var f := Run(form, b, chunkSize).fetches; i < |f| && Covers(f[i], p)
    ensures 1 <= p <= |Run(form, b, chunkSize).fetches| * chunkSize
  {
    var f := Run(form, b, chunkSize).fetches;
    RunWindows(form, b, chunkSize);
    assert f[i].startFrom == 1 + i * chunkSize;
    WindowInRange(i, |f|, chunkSize, p);
  }

  lemma InRangeIsCovered(form: Form, b: Backend, chunkSize: int, p: int)
    requires chunkSize >= 1
    requires 1 <= p <= |Run(form, b, chunkSize).fetches| * chunkSize
    ensures var f := Run(form, b, chunkSize).fetches;
            exists i :: 0 <= i < |f| && Covers(f[i], p)
  {
    var f := Run(form, b, chunkSize).fetches;
    var k := |f|;
    RangeInWindow(k, chunkSize, p);
    var i := (p - 1) / chunkSize;
    assert f == Loop(form, b, chunkSize, 1, 0).fetches;
    LoopWindows(form, b, chunkSize, 1, 0, i);
    assert Covers(f[i], p);
  }

  /** The windows read cover exactly the positions `1 .. K·chunkSize`. */
  lemma CoveredPositions(form: Form, b: Backend, chunkSize: int, p: int)
    requires chunkSize >= 1
    ensures var f := Run(form, b, chunkSize).fetches;
            (exists i :: 0 <= i < |f| && Covers(f[i], p)) <==> 1 <= p <= |f| * chunkSize
  {
    var f := Run(form, b, chunkSize).fetches;
    if i :| 0 <= i < |f| && Covers(f[i], p) {
      CoveredIsInRange(form, b, chunkSize, p, i);
    }
    if 1 <= p <= |f| * chunkSize {
      InRangeIsCovered(form, b, chunkSize, p);
    }
  }

  /** With a stable total `m` and no failures, every position below `m` is
      read, but position `m` itself is read only when `m ≤ K·chunkSize`: the
      stop rule leaves it unread when `m = 1 + K·chunkSize`. */
  lemma SteadyCoverage(form: Form, b: Backend, chunkSize: int, m: int, p: int)
    requires chunkSize >= 1 && b.login.Returns? && Steady(b, m) && 1 <= p <= m
    ensures var f := Run(form, b, chunkSize).fetches;
            (exists i :: 0 <= i < |f| && Covers(f[i], p)) <==> p < m || m <= |f| * chunkSize
  {
    SteadyReadCount(form, b, chunkSize, m);
    CoveredPositions(form, b, chunkSize, p);
  }

  /** The boundary record: with `chunkSize + 1` matches, one read is made and
      the last matching record is never in a window. */
  lemma BoundaryRecordSkipped(form: Form, b: Backend, chunkSize: int)
    requires chunkSize >= 1 && b.login.Returns? && Steady(b, chunkSize + 1)
    ensures var f := Run(form, b, chunkSize).fetches;
            |f| == 1 && forall i :: 0 <= i < |f| ==> !Covers(f[i], chunkSize + 1)
  {
    SmallTotalOneRead(form, b, chunkSize, chunkSize + 1);
  }
}

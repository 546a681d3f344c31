/** The four workers of extra/prac_pthread.c on one shared array: every interleaving of their single accesses. */
module Workers {
  import opened MergeSort

  const NUM_THREADS: nat := 4

  /** What a worker still has to do. Bounds are half open. A merge first copies its runs, element by element, then
      writes the merge of what it has copied. */
  datatype Task =
    | ToSort(l: nat, h: nat)
    | Copying(l: nat, m: nat, h: nat, left: seq<int>, right: seq<int>)
    | Writing(k: nat, left: seq<int>, right: seq<int>)

  /** The task touches elements lo up to hi only. */
  predicate TaskIn(t: Task, lo: nat, hi: nat) {
    match t
    case ToSort(l, h) => lo <= l <= h <= hi
    case Copying(l, m, h, left, right) =>
      lo <= l <= m <= h <= hi && |left| <= m - l && |right| <= h - m && (|left| < m - l ==> right == [])
    case Writing(k, left, right) => lo <= k && k + |left| + |right| <= hi
  }

  predicate StackIn(stack: seq<Task>, lo: nat, hi: nat) {
    forall i | 0 <= i < |stack| :: TaskIn(stack[i], lo, hi)
  }

  datatype Config = Config(stack: seq<Task>, arr: seq<int>)

  /** One step of a worker: it reads or writes at most one element. */
  function Step(stack: seq<Task>, arr: seq<int>): Config
    requires stack != [] && StackIn(stack, 0, |arr|)
  {
    var rest := stack[1..];
    match stack[0]
    case ToSort(l, h) =>
      if l + 1 < h then
        var m := l + Half(h - l);
        Config([ToSort(l, m), ToSort(m, h), Copying(l, m, h, [], [])] + rest, arr)
      else Config(rest, arr)
    case Copying(l, m, h, left, right) =>
      if |left| < m - l then Config([Copying(l, m, h, left + [arr[l + |left|]], right)] + rest, arr)
      else if |right| < h - m then Config([Copying(l, m, h, left, right + [arr[m + |right|]])] + rest, arr)
      else Config([Writing(l, left, right)] + rest, arr)
    case Writing(k, left, right) =>
      if left == [] && right == [] then Config(rest, arr)
      else if left != [] && (right == [] || left[0] <= right[0]) then
        Config([Writing(k + 1, left[1..], right)] + rest, arr[k := left[0]])
      else
        Config([Writing(k + 1, left, right[1..])] + rest, arr[k := right[0]])
  }

  // ---------- what a worker will have done ----------

  /** The array once the task is complete, if nobody else interferes. */
  function Effect(t: Task, arr: seq<int>): (r: seq<int>)
    requires TaskIn(t, 0, |arr|)
    ensures |r| == |arr|
  {
    match t
    case ToSort(l, h) => SortIn(arr, l, h)
    case Copying(l, m, h, left, right) =>
      MergeAt(arr, l, left + arr[l + |left|..m], right + arr[m + |right|..h])
    case Writing(k, left, right) => MergeAt(arr, k, left, right)
  }

  /** The merge of two sequences written at k. */
  function MergeAt(arr: seq<int>, k: nat, left: seq<int>, right: seq<int>): (r: seq<int>)
    requires k + |left| + |right| <= |arr|
    ensures |r| == |arr|
  {
    Patch(arr, k, MergeSeq(left, right))
  }

  function Finish(stack: seq<Task>, arr: seq<int>): (r: seq<int>)
    requires StackIn(stack, 0, |arr|)
    ensures |r| == |arr|
    decreases |stack|
  {
    if stack == [] then arr else Finish(stack[1..], Effect(stack[0], arr))
  }

  lemma FinishOne(t: Task, rest: seq<Task>, arr: seq<int>)
    requires TaskIn(t, 0, |arr|) && StackIn(rest, 0, |arr|)
    ensures StackIn([t] + rest, 0, |arr|)
    ensures Finish([t] + rest, arr) == Finish(rest, Effect(t, arr))
  {
    hide Effect, TaskIn;
    assert ([t] + rest)[1..] == rest;
  }

  lemma FinishSort(l: nat, h: nat, rest: seq<Task>, arr: seq<int>)
    requires l + 1 < h <= |arr| && StackIn(rest, 0, |arr|)
    ensures var m := l + Half(h - l);
            var t := [ToSort(l, m), ToSort(m, h), Copying(l, m, h, [], [])] + rest;
            && StackIn(t, 0, |arr|)
            && Finish(t, arr) == Finish(rest, SortIn(arr, l, h))
  {
    hide Finish, SortIn, MergeSeq, Patch;
    var m := l + Half(h - l);
    var a := SortIn(arr, l, m);
    var b := SortIn(a, m, h);
    var merge := Copying(l, m, h, [], []);
    FinishOne(merge, rest, b);
    FinishOne(ToSort(m, h), [merge] + rest, a);
    FinishOne(ToSort(l, m), [ToSort(m, h)] + ([merge] + rest), arr);
    assert [ToSort(l, m), ToSort(m, h), merge] + rest == [ToSort(l, m)] + ([ToSort(m, h)] + ([merge] + rest));
    assert [] + b[l..m] == b[l..m] && [] + b[m..h] == b[m..h];
    SplitSort(arr, l, h);
    MergeInIs(b, l, m, h);
  }

  /** A step brings a worker closer to what it will have done, and does not change it. */
  lemma StepFinish(stack: seq<Task>, arr: seq<int>)
    requires stack != [] && StackIn(stack, 0, |arr|)
    ensures var c := Step(stack, arr);
            |c.arr| == |arr| && StackIn(c.stack, 0, |arr|) && Finish(c.stack, c.arr) == Finish(stack, arr)
  {
    hide Finish, SortIn, MergeSeq, Patch, Effect;
    var rest := stack[1..];
    assert stack == [stack[0]] + rest;
    FinishOne(stack[0], rest, arr);
    match stack[0] {
      case ToSort(l, h) =>
        if l + 1 < h {
          FinishSort(l, h, rest, arr);
          EffectSort(arr, l, h);
        } else {
          EffectSort(arr, l, h);
        }
      case Copying(l, m, h, left, right) => CopyStep(l, m, h, left, right, rest, arr);
      case Writing(k, left, right) => WriteStep(k, left, right, rest, arr);
    }
  }

  lemma EffectSort(arr: seq<int>, l: nat, h: nat)
    requires l <= h <= |arr|
    ensures Effect(ToSort(l, h), arr) == SortIn(arr, l, h)
    ensures l + 1 >= h ==> SortIn(arr, l, h) == arr
  {
    if l + 1 >= h {
      assert Sort(arr[l..h]) == arr[l..h];
    }
  }

  lemma CopyStep(l: nat, m: nat, h: nat, left: seq<int>, right: seq<int>, rest: seq<Task>, arr: seq<int>)
    requires TaskIn(Copying(l, m, h, left, right), 0, |arr|) && StackIn(rest, 0, |arr|)
    ensures StackIn([Copying(l, m, h, left, right)] + rest, 0, |arr|)
    ensures var c := Step([Copying(l, m, h, left, right)] + rest, arr);
            c.arr == arr && StackIn(c.stack, 0, |arr|) && Finish(c.stack, arr)
              == Finish(rest, Effect(Copying(l, m, h, left, right), arr))
  {
    hide Finish, Effect;
    var t := Copying(l, m, h, left, right);
    assert ([t] + rest)[1..] == rest;
    CopyEffect(l, m, h, left, right, arr);
    if |left| < m - l {
      FinishOne(Copying(l, m, h, left + [arr[l + |left|]], right), rest, arr);
    } else if |right| < h - m {
      FinishOne(Copying(l, m, h, left, right + [arr[m + |right|]]), rest, arr);
    } else {
      FinishOne(Writing(l, left, right), rest, arr);
    }
  }

  lemma CopyEffect(l: nat, m: nat, h: nat, left: seq<int>, right: seq<int>, arr: seq<int>)
    requires TaskIn(Copying(l, m, h, left, right), 0, |arr|)
    ensures |left| < m - l ==>
              Effect(Copying(l, m, h, left + [arr[l + |left|]], right), arr)
                == Effect(Copying(l, m, h, left, right), arr)
    ensures |left| == m - l && |right| < h - m ==>
              Effect(Copying(l, m, h, left, right + [arr[m + |right|]]), arr)
                == Effect(Copying(l, m, h, left, right), arr)
    ensures |left| == m - l && |right| == h - m ==>
              Effect(Writing(l, left, right), arr) == Effect(Copying(l, m, h, left, right), arr)
  {
    hide Effect, MergeAt, SortIn;
    EffectCopy(l, m, h, left, right, arr);
    if |left| < m - l {
      EffectCopy(l, m, h, left + [arr[l + |left|]], right, arr);
      Shift(left, arr, l + |left|, m);
    } else if |right| < h - m {
      EffectCopy(l, m, h, left, right + [arr[m + |right|]], arr);
      Shift(right, arr, m + |right|, h);
    } else {
      EffectWrite(l, left, right, arr);
      Copied(left, arr, m);
      Copied(right, arr, h);
    }
  }

  lemma EffectCopy(l: nat, m: nat, h: nat, left: seq<int>, right: seq<int>, arr: seq<int>)
    requires TaskIn(Copying(l, m, h, left, right), 0, |arr|)
    ensures Effect(Copying(l, m, h, left, right), arr) == MergeAt(arr, l, left + arr[l + |left|..m],
              right + arr[m + |right|..h])
  {
    hide MergeAt, SortIn;
  }

  lemma EffectWrite(k: nat, left: seq<int>, right: seq<int>, arr: seq<int>)
    requires k + |left| + |right| <= |arr|
    ensures Effect(Writing(k, left, right), arr) == MergeAt(arr, k, left, right)
  {
    hide MergeAt, SortIn;
  }

  lemma Copied(copied: seq<int>, arr: seq<int>, h: nat)
    requires h <= |arr|
    ensures copied + arr[h..h] == copied
  {
  }

  lemma Shift(copied: seq<int>, arr: seq<int>, i: nat, h: nat)
    requires i < h <= |arr|
    ensures copied + [arr[i]] + arr[i + 1..h] == copied + arr[i..h]
  {
  }

  lemma WriteStep(k: nat, left: seq<int>, right: seq<int>, rest: seq<Task>, arr: seq<int>)
    requires k + |left| + |right| <= |arr| && StackIn(rest, 0, |arr|)
    ensures StackIn([Writing(k, left, right)] + rest, 0, |arr|)
    ensures var c := Step([Writing(k, left, right)] + rest, arr);
            && |c.arr| == |arr| && StackIn(c.stack, 0, |arr|)
            && Finish(c.stack, c.arr) == Finish(rest, Effect(Writing(k, left, right), arr))
  {
    hide Finish, SortIn, MergeSeq, Patch;
    var t := Writing(k, left, right);
    assert ([t] + rest)[1..] == rest;
    if left == [] && right == [] {
      PatchNothing(arr, k);
    } else if left != [] && (right == [] || left[0] <= right[0]) {
      FinishOne(Writing(k + 1, left[1..], right), rest, arr[k := left[0]]);
      PatchFirst(arr, k, left, right);
    } else {
      FinishOne(Writing(k + 1, left, right[1..]), rest, arr[k := right[0]]);
      PatchFirst(arr, k, left, right);
    }
  }

  lemma PatchNothing(arr: seq<int>, k: nat)
    requires k <= |arr|
    ensures Patch(arr, k, MergeSeq([], [])) == arr
  {
    assert MergeSeq([], []) == [];
  }

  /** Writing the first element of a merge leaves the rest of it to be written. */
  lemma PatchFirst(arr: seq<int>, k: nat, left: seq<int>, right: seq<int>)
    requires k + |left| + |right| <= |arr| && (left != [] || right != [])
    ensures if left != [] && (right == [] || left[0] <= right[0])
            then Patch(arr[k := left[0]], k + 1, MergeSeq(left[1..], right)) == Patch(arr, k, MergeSeq(left, right))
            else Patch(arr[k := right[0]], k + 1, MergeSeq(left, right[1..])) == Patch(arr, k, MergeSeq(left, right))
  {
    var m := MergeSeq(left, right);
    if left != [] && (right == [] || left[0] <= right[0]) {
      assert m == [left[0]] + MergeSeq(left[1..], right);
    } else {
      assert m == [right[0]] + MergeSeq(left, right[1..]);
    }
    PatchCons(arr, k, m);
  }

  lemma PatchCons(arr: seq<int>, k: nat, m: seq<int>)
    requires m != [] && k + |m| <= |arr|
    ensures Patch(arr[k := m[0]], k + 1, m[1..]) == Patch(arr, k, m)
  {
  }

  // ---------- disjoint footprints ----------

  /** The two arrays agree on elements lo up to hi. */
  ghost predicate Agree(a: seq<int>, b: seq<int>, lo: nat, hi: nat) {
    |a| == |b| && forall i | lo <= i < hi && i < |a| :: a[i] == b[i]
  }

  /** A step keeps to its footprint: tasks stay inside, and the array changes inside only. */
  lemma StepInside(stack: seq<Task>, arr: seq<int>, lo: nat, hi: nat)
    requires stack != [] && hi <= |arr| && StackIn(stack, 0, |arr|) && StackIn(stack, lo, hi)
    ensures var c := Step(stack, arr);
            && StackIn(c.stack, lo, hi) && |c.arr| == |arr|
            && forall i | 0 <= i < |arr| && !(lo <= i < hi) :: c.arr[i] == arr[i]
  {
    assert TaskIn(stack[0], lo, hi);
  }

  /** What a task will do inside its footprint depends on what is there only. */
  lemma EffectAgrees(t: Task, a: seq<int>, b: seq<int>, lo: nat, hi: nat)
    requires TaskIn(t, lo, hi) && hi <= |a| && Agree(a, b, lo, hi) && TaskIn(t, 0, |a|)
    ensures Agree(Effect(t, a), Effect(t, b), lo, hi)
  {
    hide Sort, MergeSeq;
    match t {
      case ToSort(l, h) => assert a[l..h] == b[l..h];
      case Copying(l, m, h, left, right) =>
        assert a[l + |left|..m] == b[l + |left|..m];
        assert a[m + |right|..h] == b[m + |right|..h];
      case Writing(k, left, right) =>
    }
  }

  lemma {:induction false} FinishAgrees(stack: seq<Task>, a: seq<int>, b: seq<int>, lo: nat, hi: nat)
    requires hi <= |a| && StackIn(stack, lo, hi) && Agree(a, b, lo, hi) && StackIn(stack, 0, |a|)
    ensures Agree(Finish(stack, a), Finish(stack, b), lo, hi)
    decreases |stack|
  {
    hide TaskIn, Agree, Effect;
    if stack != [] {
      AgreeSize(a, b, lo, hi);
      EffectAgrees(stack[0], a, b, lo, hi);
      FinishAgrees(stack[1..], Effect(stack[0], a), Effect(stack[0], b), lo, hi);
    }
  }

  lemma AgreeSize(a: seq<int>, b: seq<int>, lo: nat, hi: nat)
    requires Agree(a, b, lo, hi)
    ensures |a| == |b|
  {
  }

  // ---------- four workers ----------

  datatype State = State(arr: seq<int>, stacks: seq<seq<Task>>)

  /** Worker w's elements are Lo(n, w) up to Lo(n, w + 1). */
  function Lo(n: nat, w: nat): nat {
    w * (n / NUM_THREADS)
  }

  function Start(arr: seq<int>): State {
    State(arr, seq(NUM_THREADS, w requires 0 <= w < NUM_THREADS => [ToSort(Lo(|arr|, w), Lo(|arr|, w + 1))]))
  }

  /** The array with each quarter sorted. */
  function Quarters(arr: seq<int>): (r: seq<int>)
    requires |arr| % NUM_THREADS == 0
    ensures |r| == |arr|
  {
    var q := |arr| / NUM_THREADS;
    Sort(arr[..q]) + Sort(arr[q..2 * q]) + Sort(arr[2 * q..3 * q]) + Sort(arr[3 * q..])
  }

  ghost predicate WorkerOk(s: State, goal: seq<int>, w: nat)
    requires w < |s.stacks|
  {
    && StackIn(s.stacks[w], Lo(|s.arr|, w), Lo(|s.arr|, w + 1))
    && StackIn(s.stacks[w], 0, |s.arr|)
    && Agree(Finish(s.stacks[w], s.arr), goal, Lo(|s.arr|, w), Lo(|s.arr|, w + 1))
  }

  ghost predicate Inv(s: State, goal: seq<int>) {
    && |s.stacks| == NUM_THREADS && |s.arr| == |goal| && |goal| % NUM_THREADS == 0
    && forall w | 0 <= w < NUM_THREADS :: WorkerOk(s, goal, w)
  }

  ghost function Do(s: State, w: nat): State
    requires w < |s.stacks| && s.stacks[w] != [] && StackIn(s.stacks[w], 0, |s.arr|)
  {
    var c := Step(s.stacks[w], s.arr);
    State(c.arr, s.stacks[w := c.stack])
  }

  lemma LoBound(n: nat, w: nat, v: nat)
    requires n % NUM_THREADS == 0 && w < NUM_THREADS && v < NUM_THREADS
    ensures Lo(n, w) <= Lo(n, w + 1) <= n
    ensures w != v ==> Lo(n, w + 1) <= Lo(n, v) || Lo(n, v + 1) <= Lo(n, w)
  {
  }

  /** A step of worker w leaves every worker on course. */
  lemma StepKeeps(s: State, goal: seq<int>, w: nat)
    requires w < |s.stacks| && s.stacks[w] != [] && StackIn(s.stacks[w], 0, |s.arr|) && Inv(s, goal)
    ensures Inv(Do(s, w), goal)
  {
    hide StackIn, Step, Finish, Agree, Lo;
    var n := |s.arr|;
    assert WorkerOk(s, goal, w);
    LoBound(n, w, w);
    StepFinish(s.stacks[w], s.arr);
    StepInside(s.stacks[w], s.arr, Lo(n, w), Lo(n, w + 1));
    var t := Do(s, w);
    forall v | 0 <= v < NUM_THREADS
      ensures WorkerOk(t, goal, v)
    {
      assert WorkerOk(s, goal, v);
      if v != w {
        LoBound(n, v, w);
        OtherAgrees(s, t, goal, v, Lo(n, w), Lo(n, w + 1));
      }
    }
  }

  lemma OtherAgrees(s: State, t: State, goal: seq<int>, v: nat, lo: nat, hi: nat)
    requires |s.arr| % NUM_THREADS == 0 && v < NUM_THREADS == |s.stacks| == |t.stacks| && t.stacks[v] == s.stacks[v]
               && |t.arr| == |s.arr|
    requires Lo(|s.arr|, v + 1) <= lo || hi <= Lo(|s.arr|, v)
    requires forall i | 0 <= i < |s.arr| && !(lo <= i < hi) :: t.arr[i] == s.arr[i]
    requires WorkerOk(s, goal, v)
    ensures WorkerOk(t, goal, v)
  {
    hide StackIn, Finish, Lo;
    var n := |s.arr|;
    LoBound(n, v, v);
    assert Agree(t.arr, s.arr, Lo(n, v), Lo(n, v + 1));
    FinishAgrees(t.stacks[v], t.arr, s.arr, Lo(n, v), Lo(n, v + 1));
  }

  // ---------- how long a worker takes ----------

  /** The steps it takes to sort n elements. */
  function Cost(n: nat): nat {
    if n <= 1 then 1 else 1 + Cost(Half(n)) + Cost(n - Half(n)) + 2 * n + 2
  }

  function Steps(t: Task): int {
    match t
    case ToSort(l, h) => if l <= h then Cost(h - l) else 1
    case Copying(l, m, h, left, right) => (m - l - |left|) + (h - m - |right|) + 1 + (h - l) + 1
    case Writing(k, left, right) => |left| + |right| + 1
  }

  function Work(stack: seq<Task>): int {
    if stack == [] then 0 else Steps(stack[0]) + Work(stack[1..])
  }

  lemma WorkCons(t: Task, rest: seq<Task>)
    ensures Work([t] + rest) == Steps(t) + Work(rest)
  {
    hide Steps;
    assert ([t] + rest)[1..] == rest;
  }

  lemma {:induction false} WorkLeft(stack: seq<Task>, n: nat)
    requires StackIn(stack, 0, n)
    ensures Work(stack) >= |stack|
  {
    if stack != [] {
      assert TaskIn(stack[0], 0, n);
      WorkLeft(stack[1..], n);
    }
  }

  /** Each step is one step less to go. */
  lemma StepWork(stack: seq<Task>, arr: seq<int>)
    requires stack != [] && StackIn(stack, 0, |arr|)
    ensures Work(Step(stack, arr).stack) == Work(stack) - 1
  {
    hide Work, Steps, Cost;
    var rest, t := stack[1..], stack[0];
    assert stack == [t] + rest;
    WorkCons(t, rest);
    match t {
      case ToSort(l, h) => SortWork(l, h, rest);
      case Copying(l, m, h, left, right) =>
        CopyWork(t);
        if |left| < m - l {
          WorkCons(Copying(l, m, h, left + [arr[l + |left|]], right), rest);
          CopyWork(Copying(l, m, h, left + [arr[l + |left|]], right));
        } else if |right| < h - m {
          WorkCons(Copying(l, m, h, left, right + [arr[m + |right|]]), rest);
          CopyWork(Copying(l, m, h, left, right + [arr[m + |right|]]));
        } else {
          WorkCons(Writing(l, left, right), rest);
          WriteWork(l, left, right);
        }
      case Writing(k, left, right) =>
        WriteWork(k, left, right);
        if left == [] && right == [] {
        } else if left != [] && (right == [] || left[0] <= right[0]) {
          WorkCons(Writing(k + 1, left[1..], right), rest);
          WriteWork(k + 1, left[1..], right);
        } else {
          WorkCons(Writing(k + 1, left, right[1..]), rest);
          WriteWork(k + 1, left, right[1..]);
        }
    }
  }

  lemma CopyWork(t: Task)
    requires t.Copying?
    ensures Steps(t) == (t.m - t.l - |t.left|) + (t.h - t.m - |t.right|) + 1 + (t.h - t.l) + 1
  {
  }

  lemma WriteWork(k: nat, left: seq<int>, right: seq<int>)
    ensures Steps(Writing(k, left, right)) == |left| + |right| + 1
  {
  }

  lemma SortWork(l: nat, h: nat, rest: seq<Task>)
    requires l <= h
    ensures l + 1 >= h ==> Steps(ToSort(l, h)) == 1
    ensures l + 1 < h ==>
              var m := l + Half(h - l);
              Work([ToSort(l, m), ToSort(m, h), Copying(l, m, h, [], [])] + rest) == Steps(ToSort(l, h))
                + Work(rest) - 1
  {
    hide Work, Cost;
    if l + 1 >= h {
      assert Cost(h - l) == 1 by { CostOne(h - l); }
    } else {
      var m := l + Half(h - l);
      var merge := Copying(l, m, h, [], []);
      WorkCons(merge, rest);
      WorkCons(ToSort(m, h), [merge] + rest);
      WorkCons(ToSort(l, m), [ToSort(m, h)] + ([merge] + rest));
      assert [ToSort(l, m), ToSort(m, h), merge] + rest == [ToSort(l, m)] + ([ToSort(m, h)] + ([merge] + rest));
      CostSplits(h - l);
    }
  }

  lemma CostOne(n: nat)
    ensures n <= 1 ==> Cost(n) == 1
  {
  }

  lemma CostSplits(n: nat)
    requires n > 1
    ensures Cost(n) == 1 + Cost(Half(n)) + Cost(n - Half(n)) + 2 * n + 2
  {
  }

  // ---------- whole runs ----------

  /** A run names the worker that takes each step. */
  ghost predicate Legal(s: State, run: seq<nat>)
    decreases |run|
  {
    run == [] || (run[0] < |s.stacks| && s.stacks[run[0]] != [] && StackIn(s.stacks[run[0]], 0, |s.arr|)
      && Legal(Do(s, run[0]), run[1..]))
  }

  ghost function Exec(s: State, run: seq<nat>): State
    requires Legal(s, run)
    decreases |run|
  {
    if run == [] then s else Exec(Do(s, run[0]), run[1..])
  }

  ghost predicate AllDone(s: State) {
    forall w | 0 <= w < |s.stacks| :: s.stacks[w] == []
  }

  lemma {:induction false} RunKeeps(s: State, goal: seq<int>, run: seq<nat>)
    requires Inv(s, goal) && Legal(s, run)
    ensures Inv(Exec(s, run), goal)
    decreases |run|
  {
    hide Inv, Do, StackIn;
    if run != [] {
      StepKeeps(s, goal, run[0]);
      RunKeeps(Do(s, run[0]), goal, run[1..]);
    }
  }

  lemma StartWorker(arr: seq<int>, w: nat)
    requires |arr| % NUM_THREADS == 0 && w < NUM_THREADS
    ensures WorkerOk(Start(arr), Quarters(arr), w)
  {
    hide Sort, SortIn;
    var n := |arr|;
    LoBound(n, w, w);
    var l, h := Lo(n, w), Lo(n, w + 1);
    var t := ToSort(l, h);
    assert Start(arr).stacks[w] == [t];
    assert [t] + [] == [t];
    FinishOne(t, [], arr);
    QuarterIs(arr, w);
  }

  lemma QuarterIs(arr: seq<int>, w: nat)
    requires |arr| % NUM_THREADS == 0 && w < NUM_THREADS && Lo(|arr|, w) <= Lo(|arr|, w + 1) <= |arr|
    ensures Agree(SortIn(arr, Lo(|arr|, w), Lo(|arr|, w + 1)), Quarters(arr), Lo(|arr|, w), Lo(|arr|, w + 1))
  {
    hide Sort;
    var q := |arr| / NUM_THREADS;
    if w == 0 {
      assert arr[0..q] == arr[..q];
    } else if w == 1 {
    } else if w == 2 {
    } else {
      assert w == 3 && arr[3 * q..4 * q] == arr[3 * q..];
    }
  }

  lemma StartInv(arr: seq<int>)
    requires |arr| % NUM_THREADS == 0
    ensures Inv(Start(arr), Quarters(arr))
  {
    hide Quarters;
    forall w | 0 <= w < NUM_THREADS
      ensures WorkerOk(Start(arr), Quarters(arr), w)
    {
      StartWorker(arr, w);
    }
  }

  lemma DoneIsGoal(s: State, goal: seq<int>)
    requires Inv(s, goal) && AllDone(s)
    ensures s.arr == goal
  {
    hide StackIn;
    var n := |goal|;
    assert WorkerOk(s, goal, 0) && WorkerOk(s, goal, 1) && WorkerOk(s, goal, 2) && WorkerOk(s, goal, 3);
    assert Agree(s.arr, goal, Lo(n, 0), Lo(n, 1)) && Agree(s.arr, goal, Lo(n, 1), Lo(n, 2));
    assert Agree(s.arr, goal, Lo(n, 2), Lo(n, 3)) && Agree(s.arr, goal, Lo(n, 3), Lo(n, 4));
    assert n == 4 * (n / 4);
  }

  /** However the workers interleave, once they are done each quarter of the array is sorted on its own. */
  lemma WorkersSort(arr: seq<int>, run: seq<nat>)
    requires |arr| % NUM_THREADS == 0 && Legal(Start(arr), run) && AllDone(Exec(Start(arr), run))
    ensures Exec(Start(arr), run).arr == Quarters(arr)
  {
    hide Inv, Legal, Exec, Quarters, Start;
    StartInv(arr);
    RunKeeps(Start(arr), Quarters(arr), run);
    DoneIsGoal(Exec(Start(arr), run), Quarters(arr));
  }

  ghost function Total(s: State): int
    requires |s.stacks| == NUM_THREADS
  {
    Work(s.stacks[0]) + Work(s.stacks[1]) + Work(s.stacks[2]) + Work(s.stacks[3])
  }

  lemma {:induction false} RunLength(s: State, goal: seq<int>, run: seq<nat>)
    requires Inv(s, goal) && Legal(s, run)
    ensures |Exec(s, run).stacks| == NUM_THREADS && |run| + Total(Exec(s, run)) == Total(s)
    decreases |run|
  {
    hide StackIn, Step, Work, WorkerOk;
    if run != [] {
      StepKeeps(s, goal, run[0]);
      StepWork(s.stacks[run[0]], s.arr);
      RunLength(Do(s, run[0]), goal, run[1..]);
    }
  }

  lemma TotalZero(s: State, goal: seq<int>)
    requires Inv(s, goal)
    ensures Total(s) >= 0 && (AllDone(s) <==> Total(s) == 0)
  {
    hide StackIn, Agree, Finish;
    forall w | 0 <= w < NUM_THREADS
      ensures Work(s.stacks[w]) >= |s.stacks[w]|
    {
      assert WorkerOk(s, goal, w);
      WorkLeft(s.stacks[w], |s.arr|);
    }
  }

  /** Every interleaving ends, after the same number of steps; until then some worker can step. */
  lemma AllRunsEnd(arr: seq<int>, run: seq<nat>)
    requires |arr| % NUM_THREADS == 0 && Legal(Start(arr), run)
    ensures |run| <= 4 * Cost(|arr| / 4)
    ensures AllDone(Exec(Start(arr), run)) <==> |run| == 4 * Cost(|arr| / 4)
    ensures !AllDone(Exec(Start(arr), run)) ==> exists w: nat :: Legal(Exec(Start(arr), run), [w])
  {
    hide Inv, Quarters, Start, Total, Exec, Legal;
    StartInv(arr);
    RunKeeps(Start(arr), Quarters(arr), run);
    RunLength(Start(arr), Quarters(arr), run);
    TotalZero(Exec(Start(arr), run), Quarters(arr));
    StartTotal(arr);
    if !AllDone(Exec(Start(arr), run)) {
      SomeStep(Exec(Start(arr), run), Quarters(arr));
    }
  }

  lemma SomeStep(s: State, goal: seq<int>)
    requires Inv(s, goal) && !AllDone(s)
    ensures exists w: nat :: Legal(s, [w])
  {
    hide StackIn, Agree, Finish, Step;
    var w: nat :| w < |s.stacks| && s.stacks[w] != [];
    assert WorkerOk(s, goal, w);
    assert [w][1..] == [];
    assert Legal(s, [w]);
  }

  lemma StartTotal(arr: seq<int>)
    requires |arr| % NUM_THREADS == 0
    ensures |Start(arr).stacks| == NUM_THREADS && Total(Start(arr)) == 4 * Cost(|arr| / 4)
  {
    hide Cost;
    forall w | 0 <= w < NUM_THREADS
      ensures Work(Start(arr).stacks[w]) == Cost(|arr| / 4)
    {
      var t := ToSort(Lo(|arr|, w), Lo(|arr|, w + 1));
      assert Start(arr).stacks[w] == [t] && [t] + [] == [t];
      WorkCons(t, []);
      assert Lo(|arr|, w + 1) - Lo(|arr|, w) == |arr| / 4;
    }
  }

  // ---------- the final merges ----------

  /** The three merges after the workers have been joined. */
  function Merged(s: seq<int>): (r: seq<int>)
    requires |s| % NUM_THREADS == 0
    ensures |r| == |s|
  {
    var n, q := |s|, |s| / 4;
    MergeIn(MergeIn(MergeIn(s, 0, q, 2 * q), 2 * q, 3 * q, n), 0, 2 * q, n)
  }

  lemma MergedIs(s: seq<int>, q: nat)
    requires |s| == 4 * q
    ensures Merged(s) == MergeSeq(MergeSeq(s[0..q], s[q..2 * q]), MergeSeq(s[2 * q..3 * q], s[3 * q..4 * q]))
  {
    hide MergeSeq, MergeIn;
    MergeSlice(s, 0, q, 2 * q);
    MergeKeeps(s, 0, q, 2 * q, 2 * q, 3 * q);
    MergeKeeps(s, 0, q, 2 * q, 3 * q, 4 * q);
    var s1 := MergeIn(s, 0, q, 2 * q);
    MergeSlice(s1, 2 * q, 3 * q, 4 * q);
    MergeKeeps(s1, 2 * q, 3 * q, 4 * q, 0, 2 * q);
    var s2 := MergeIn(s1, 2 * q, 3 * q, 4 * q);
    MergeSlice(s2, 0, 2 * q, 4 * q);
    var s3 := MergeIn(s2, 0, 2 * q, 4 * q);
    assert s3[0..4 * q] == s3;
  }

  lemma MergeSlice(s: seq<int>, l: nat, m: nat, h: nat)
    requires l <= m <= h <= |s|
    ensures MergeIn(s, l, m, h)[l..h] == MergeSeq(s[l..m], s[m..h])
  {
    hide MergeSeq;
  }

  lemma MergeKeeps(s: seq<int>, l: nat, m: nat, h: nat, x: nat, y: nat)
    requires l <= m <= h <= |s| && x <= y <= |s| && (y <= l || h <= x)
    ensures MergeIn(s, l, m, h)[x..y] == s[x..y]
  {
    hide MergeSeq;
  }

  lemma MergedSorts(s: seq<int>)
    requires |s| % NUM_THREADS == 0
    ensures Sorted(Merged(Quarters(s))) && multiset(Merged(Quarters(s))) == multiset(s)
  {
    hide Sort, MergeSeq, Merged, Sorted, Quarters;
    var q := |s| / 4;
    var a, b, c, d := s[..q], s[q..2 * q], s[2 * q..3 * q], s[3 * q..];
    SortSorts(a);
    SortSorts(b);
    SortSorts(c);
    SortSorts(d);
    QuarterSlices(s, q);
    MergedIs(Quarters(s), q);
    MergeSorts(Sort(a), Sort(b));
    MergeSorts(Sort(c), Sort(d));
    MergePermutes(Sort(a), Sort(b));
    MergePermutes(Sort(c), Sort(d));
    MergeSorts(MergeSeq(Sort(a), Sort(b)), MergeSeq(Sort(c), Sort(d)));
    MergePermutes(MergeSeq(Sort(a), Sort(b)), MergeSeq(Sort(c), Sort(d)));
    QuarterBag(s, q);
  }

  lemma QuarterSlices(s: seq<int>, q: nat)
    requires |s| == 4 * q
    ensures Quarters(s)[0..q] == Sort(s[..q]) && Quarters(s)[q..2 * q] == Sort(s[q..2 * q])
    ensures Quarters(s)[2 * q..3 * q] == Sort(s[2 * q..3 * q]) && Quarters(s)[3 * q..4 * q] == Sort(s[3 * q..])
  {
    hide Sort;
  }

  lemma QuarterBag(s: seq<int>, q: nat)
    requires 3 * q <= |s|
    ensures multiset(s[..q]) + multiset(s[q..2 * q]) + (multiset(s[2 * q..3 * q]) + multiset(s[3 * q..])) == multiset(s)
  {
    assert s == s[..q] + s[q..2 * q] + s[2 * q..3 * q] + s[3 * q..];
  }

  /** For any size divisible by four and any interleaving of the workers, the final merges leave a sorted permutation
      of the array; if it was a permutation of 0, 1, 2, ... they leave exactly that. */
  lemma ParallelSort(arr: seq<int>, run: seq<nat>)
    requires |arr| % NUM_THREADS == 0 && Legal(Start(arr), run) && AllDone(Exec(Start(arr), run))
    ensures |Exec(Start(arr), run).arr| == |arr|
    ensures var r := Merged(Exec(Start(arr), run).arr);
            && Sorted(r) && multiset(r) == multiset(arr)
            && (multiset(arr) == multiset(Identity(|arr|)) ==> r == Identity(|arr|))
  {
    hide Legal, Exec, Start, Merged, Quarters;
    WorkersSort(arr, run);
    MergedSorts(arr);
    if multiset(arr) == multiset(Identity(|arr|)) {
      SortedUnique(Merged(Quarters(arr)), Identity(|arr|));
    }
  }

  method FinalMerges(arr: array<int>)
    requires arr.Length > 0 && arr.Length % NUM_THREADS == 0
    modifies arr
    ensures arr[..] == Merged(old(arr[..]))
  {
    hide MergeSeq, Patch;
    var n := arr.Length;
    ghost var q := n / 4;
    MidPoints(n);
    ghost var s := arr[..];
    assert arr[0..q] == s[0..q] && arr[q..2 * q] == s[q..2 * q];
    Merge(arr, 0, (n / 2 - 1) / 2, n / 2 - 1);
    ghost var s1 := arr[..];
    assert arr[2 * q..3 * q] == s1[2 * q..3 * q] && arr[3 * q..4 * q] == s1[3 * q..4 * q];
    Merge(arr, n / 2, n / 2 + (n - 1 - n / 2) / 2, n - 1);
    ghost var s2 := arr[..];
    assert arr[0..2 * q] == s2[0..2 * q] && arr[2 * q..4 * q] == s2[2 * q..4 * q];
    Merge(arr, 0, (n - 1) / 2, n - 1);
  }

  /** The final merges' bounds are the bounds of the workers' quarters. */
  lemma MidPoints(n: nat)
    requires n > 0 && n % NUM_THREADS == 0
    ensures var q := n / 4;
            && (n / 2 - 1) / 2 + 1 == q && n / 2 == 2 * q
            && n / 2 + (n - 1 - n / 2) / 2 + 1 == 3 * q && n == 4 * q
            && (n - 1) / 2 + 1 == 2 * q
  {
  }

  /** What `main` does once the workers are joined, however they interleaved: the check succeeds. */
  method AfterJoin(arr: array<int>, ghost shuffled: seq<int>, ghost run: seq<nat>) returns (ok: bool)
    requires arr.Length > 0 && arr.Length % NUM_THREADS == 0 && |shuffled| == arr.Length
    requires multiset(shuffled) == multiset(Identity(arr.Length))
    requires Legal(Start(shuffled), run) && AllDone(Exec(Start(shuffled), run))
               && arr[..] == Exec(Start(shuffled), run).arr
    modifies arr
    ensures ok
  {
    hide Legal, Exec, Start, Merged, Sorted;
    ParallelSort(shuffled, run);
    FinalMerges(arr);
    ok := CheckSorted(arr);
  }
}

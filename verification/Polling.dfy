/** Three loops that count: waiting until a cluster stays healthy (create_cluster.py),
    waiting for commands under one time budget (utils/cm.py), and uploading a file in
    chunks (cdsw_setup.py). */
module Polling {
  import opened Wrappers

  // Health.

  const WAIT_UNTIL_STABLE: nat := 5

  /** One observation of the cluster, and the time when the loop then looks at the clock. */
  datatype Poll = Poll(good: bool, now: real)

  datatype Outcome = Healthy(poll: nat) | TimedOut(poll: nat) | StillWaiting

  /** The last five observations are all good. */
  predicate Stable(polls: seq<Poll>, i: int)
    requires i < |polls|
  {
    i >= 4 && forall j :: i - 4 <= j <= i ==> polls[j].good
  }

  /** The loop leaves at the first poll whose last observations are all good or which is
      past the deadline; the former makes it return and the latter, alone, makes it raise. */
  method WaitForGoodHealth(polls: seq<Poll>, deadline: real) returns (outcome: Outcome)
    ensures outcome.Healthy? ==> outcome.poll < |polls| && Stable(polls, outcome.poll)
    ensures outcome.TimedOut? ==>
        outcome.poll < |polls| && !Stable(polls, outcome.poll) && deadline < polls[outcome.poll].now
    ensures forall j :: 0 <= j < (if outcome.StillWaiting? then |polls| else outcome.poll) ==>
              !Stable(polls, j) && polls[j].now <= deadline
  {
    var remaining := WAIT_UNTIL_STABLE;
    for i := 0 to |polls|
      invariant 1 <= remaining <= WAIT_UNTIL_STABLE && WAIT_UNTIL_STABLE - remaining <= i
      invariant forall j :: i - (WAIT_UNTIL_STABLE - remaining) <= j < i ==> polls[j].good
      invariant i > WAIT_UNTIL_STABLE - remaining ==> !polls[i - (WAIT_UNTIL_STABLE - remaining) - 1].good
      invariant forall j :: 0 <= j < i ==> !Stable(polls, j) && polls[j].now <= deadline
    {
      if polls[i].good {
        remaining := remaining - 1;
        if remaining == 0 {
          return Healthy(i);
        }
      } else {
        remaining := WAIT_UNTIL_STABLE;
      }
      if deadline < polls[i].now {
        return TimedOut(i);
      }
    }
    return StillWaiting;
  }

  // Commands.

  datatype Command = Command(id: string, active: bool)

  function Max(a: int, b: int): int {
    if a < b then b else a
  }

  /** The command was given as inactive, or found inactive within the first `seconds` seconds. */
  predicate SeenInactive(c: Command, poll: (string, nat) -> bool, seconds: nat) {
    !c.active || exists t :: 1 <= t <= seconds && !poll(c.id, t)
  }

  /** Waiting for `c` from second `start` on ends at second `end`: at once if it is inactive
      or the budget is spent, and otherwise as soon as a poll finds it inactive or the budget
      is spent. */
  ghost predicate WaitsFor(c: Command, poll: (string, nat) -> bool, budget: nat, start: nat, end: nat) {
    && start <= end <= budget
    && (start < end <==> c.active && start < budget)
    && (forall t :: start < t < end ==> poll(c.id, t))
    && (start < end < budget ==> !poll(c.id, end))
  }

  /** The commands are waited for one after the other; `ends[i]` is when the wait for the
      first `i` of them ends. */
  ghost predicate WaitsInTurn(cmds: seq<Option<Command>>, poll: (string, nat) -> bool, budget: nat, ends: seq<nat>) {
    && 0 < |ends| <= |cmds| + 1 && ends[0] == 0
    && forall i :: 0 <= i < |ends| - 1 ==>
         match cmds[i]
         case None => ends[i + 1] == ends[i]
         case Some(c) => WaitsFor(c, poll, budget, ends[i], ends[i + 1])
  }

  /** `c` is the last command that is not null. */
  predicate IsLast(cmds: seq<Option<Command>>, c: Command) {
    exists i :: 0 <= i < |cmds| && cmds[i].Some? && cmds[i].value.id == c.id
                && forall j :: i < j < |cmds| ==> cmds[j].None?
  }

  /** The inner loop, for one command. */
  method WaitForOne(c: Command, left: int, slept: nat, ghost timeout: int, poll: (string, nat) -> bool)
    returns (cmd: Command, left': int, slept': nat)
    requires left == timeout - slept && (left >= 0 || slept == 0)
    ensures left' == timeout - slept' && (left' >= 0 || slept' == 0)
    ensures WaitsFor(c, poll, Max(0, timeout), slept, slept')
    ensures cmd.id == c.id && (left' > 0 ==> !cmd.active && SeenInactive(c, poll, slept'))
  {
    cmd, left', slept' := c, left, slept;
    while left' > 0 && cmd.active
      invariant left' == timeout - slept' && (left' >= 0 || slept' == 0) && slept <= slept'
      invariant cmd.id == c.id
      invariant slept' == slept ==> cmd == c
      invariant slept < slept' ==> left > 0 && c.active && cmd.active == poll(c.id, slept')
      invariant forall t :: slept < t < slept' ==> poll(c.id, t)
      decreases left'
    {
      left', slept' := left' - 1, slept' + 1;
      cmd := Command(cmd.id, poll(cmd.id, slept'));
    }
  }

  /** `poll(id, t)` is whether a command is still active after `t` seconds. All commands
      share the budget: either it is spent, or every command was seen inactive. */
  method WaitForCommands(cmds: seq<Option<Command>>, timeout: int, poll: (string, nat) -> bool)
    returns (last: Option<Command>, slept: nat, ghost ends: seq<nat>)
    ensures slept <= Max(0, timeout)
    ensures slept < timeout ==> forall i :: 0 <= i < |cmds| && cmds[i].Some? ==>
        SeenInactive(cmds[i].value, poll, slept)
    ensures |ends| == |cmds| + 1 && ends[|cmds|] == slept && WaitsInTurn(cmds, poll, Max(0, timeout), ends)
    ensures last.None? ==> forall i :: 0 <= i < |cmds| ==> cmds[i].None?
    ensures last.Some? ==> IsLast(cmds, last.value)
    ensures last.Some? && slept < timeout ==> !last.value.active
  {
    var left := timeout;
    last, slept, ends := None, 0, [0];
    for i := 0 to |cmds|
      invariant left == timeout - slept && (left >= 0 || slept == 0)
      invariant left > 0 ==> forall j :: 0 <= j < i && cmds[j].Some? ==> SeenInactive(cmds[j].value, poll, slept)
      invariant |ends| == i + 1 && ends[i] == slept && WaitsInTurn(cmds, poll, Max(0, timeout), ends)
      invariant last.None? ==> forall j :: 0 <= j < i ==> cmds[j].None?
      invariant last.Some? ==> IsLast(cmds[..i], last.value)
      invariant last.Some? && left > 0 ==> !last.value.active
    {
      assert cmds[..i + 1][..i] == cmds[..i];
      if cmds[i].Some? {
        var cmd;
        cmd, left, slept := WaitForOne(cmds[i].value, left, slept, timeout, poll);
        last := Some(cmd);
        assert cmds[..i + 1][i] == cmds[i];
      }
      ends := ends + [slept];
    }
    assert cmds[..|cmds|] == cmds;
  }

  /** Nothing but the commands, the polls and the budget decides how long the wait is. */
  lemma {:induction false} WaitIsDetermined(cmds: seq<Option<Command>>, poll: (string, nat) -> bool, budget: nat,
      ends: seq<nat>, ends': seq<nat>)
    requires WaitsInTurn(cmds, poll, budget, ends) && WaitsInTurn(cmds, poll, budget, ends') && |ends| == |ends'|
    ensures ends == ends'
  {
    var n := |ends| - 1;
    if n > 0 {
      WaitIsDetermined(cmds, poll, budget, ends[..n], ends'[..n]);
      assert ends[n - 1] == ends[..n][n - 1] == ends'[..n][n - 1] == ends'[n - 1];
      var e, e' := ends[n - 1 + 1], ends'[n - 1 + 1];
      assert e == e';
      assert ends == ends[..n] + [e] && ends' == ends'[..n] + [e'];
    }
  }

  // Upload.

  type Bytes = seq<bv8>

  datatype Chunk = Chunk(number: nat, size: nat, fileSize: nat, announced: nat, data: Bytes)

  function CeilDiv(n: nat, d: nat): nat
    requires d > 0
  {
    (n + d - 1) / d
  }

  function Joined(chunks: seq<Chunk>): Bytes {
    if chunks == [] then [] else Joined(chunks[..|chunks| - 1]) + chunks[|chunks| - 1].data
  }

  lemma CeilDivIs(n: nat, d: nat, k: nat)
    requires d > 0 && n <= k * d && (k > 0 ==> (k - 1) * d < n)
    ensures CeilDiv(n, d) == k
  {
    if k == 0 {
      assert n == 0 && (d - 1) / d == 0;
    } else {
      var rest := n - (k - 1) * d - 1;
      assert n + d - 1 == rest + k * d by {
        assert (k - 1) * d == k * d - d;
      }
      assert 0 <= rest < d;
      QuotientIs(rest, d, k);
    }
  }

  lemma QuotientIs(rest: nat, d: nat, k: nat)
    requires rest < d
    ensures (rest + k * d) / d == k
  {
    var x := rest + k * d;
    var q, r := x / d, x % d;
    assert x == q * d + r;
    if q < k {
      Gap(q, k, d);
    } else if k < q {
      Gap(k, q, d);
    }
  }

  lemma Gap(a: nat, b: nat, d: nat)
    requires a < b
    ensures a * d + d <= b * d
  {
    assert (b - a - 1) * d >= 0;
    assert b * d == a * d + d + (b - a - 1) * d;
  }

  /** The chunks are numbered from 1, carry what they say, and are full except perhaps the last. */
  ghost predicate WellCut(chunks: seq<Chunk>, fileSize: nat, chunkSize: nat, announced: nat) {
    forall i :: 0 <= i < |chunks| ==>
      && chunks[i].number == i + 1 && chunks[i].announced == announced && chunks[i].fileSize == fileSize
      && chunks[i].size == |chunks[i].data| && 0 < chunks[i].size <= chunkSize
      && (i < |chunks| - 1 ==> chunks[i].size == chunkSize)
  }

  lemma OneMoreChunk(chunks: seq<Chunk>, c: Chunk, fileSize: nat, chunkSize: nat, announced: nat)
    requires WellCut(chunks, fileSize, chunkSize, announced)
    requires chunks != [] ==> chunks[|chunks| - 1].size == chunkSize
    requires c.number == |chunks| + 1 && c.announced == announced && c.fileSize == fileSize
    requires c.size == |c.data| && 0 < c.size <= chunkSize
    ensures WellCut(chunks + [c], fileSize, chunkSize, announced)
    ensures Joined(chunks + [c]) == Joined(chunks) + c.data
  {
    assert (chunks + [c])[..|chunks|] == chunks;
  }

  lemma NextChunk(size: nat, chunkSize: nat, number: nat)
    requires number * chunkSize < size
    ensures (number + 1) * chunkSize == number * chunkSize + chunkSize
  {
  }

  /** The chunks put together are the file, they are numbered from 1, all but the last are
      full, and there are as many as each of them announces. */
  method UploadFile(file: Bytes, chunkSize: nat) returns (chunks: seq<Chunk>)
    requires chunkSize > 0
    ensures Joined(chunks) == file && |chunks| == CeilDiv(|file|, chunkSize)
    ensures WellCut(chunks, |file|, chunkSize, |chunks|)
  {
    var total := CeilDiv(|file|, chunkSize);
    var pos, number := 0, 0;
    chunks := [];
    while pos < |file|
      invariant pos <= |file| && number == |chunks| && Joined(chunks) == file[..pos]
      invariant WellCut(chunks, |file|, chunkSize, total)
      invariant pos < |file| ==> pos == number * chunkSize && (number > 0 ==> chunks[number - 1].size == chunkSize)
      invariant |file| <= pos ==> |file| <= number * chunkSize && (number > 0 ==> (number - 1) * chunkSize < |file|)
      decreases |file| - pos
    {
      var next := if pos + chunkSize < |file| then pos + chunkSize else |file|;
      var buf := file[pos..next];
      NextChunk(|file|, chunkSize, number);
      number := number + 1;
      var chunk := Chunk(number, |buf|, |file|, total, buf);
      OneMoreChunk(chunks, chunk, |file|, chunkSize, total);
      assert file[..next] == file[..pos] + buf;
      chunks, pos := chunks + [chunk], next;
    }
    CeilDivIs(|file|, chunkSize, number);
    assert file[..pos] == file;
  }
}

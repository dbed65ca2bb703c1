/** The operations of kernel/bio.c on the buffers and their list. */
module Bio {
  import opened BufList
  import opened BufCache

  /** Every buffer is in the list. */
  ghost predicate Covers(order: seq<nat>, n: nat) {
    |order| == n && Below(order, n) && forall b {:trigger b in order} :: 0 <= b < n ==> b in order
  }

  lemma FrontCovers(order: seq<nat>, n: nat, k: nat)
    requires Covers(order, n) && k < n
    ensures Covers([order[k]] + Without(order, k), n)
  {
    var order' := [order[k]] + Without(order, k);
    forall b | 0 <= b < n ensures b in order' {
      assert b in order;
      var j :| 0 <= j < n && order[j] == b;
      assert j < k ==> order'[j + 1] == b;
      assert j > k ==> order'[j] == b;
      assert j == k ==> order'[0] == b;
    }
  }

  ghost predicate Stamped(order: seq<nat>, stamp: seq<nat>, time: nat) {
    ByStamp(order, stamp) && forall x :: 0 <= x < |stamp| ==> stamp[x] <= time
  }

  /** The list while binit builds it: the first `b` buffers, the last of them in front. */
  ghost predicate Numbered(order: seq<nat>, b: nat) {
    |order| == b && forall i {:trigger order[i]} :: 0 <= i < b ==> order[i] == b - 1 - i
  }

  lemma NumberedCovers(order: seq<nat>, n: nat)
    requires Numbered(order, n)
    ensures Covers(order, n)
  {
    forall b | 0 <= b < n ensures b in order {
      assert order[n - 1 - b] == b;
    }
  }

  lemma NextFree(order: seq<nat>, next: seq<nat>, prev: seq<nat>, b: nat, n: nat)
    requires Numbered(order, b) && b < n && |next| == |prev| == n + 1 && Linked(next, prev, order, n)
    ensures b !in order && Numbered([b] + order, b + 1)
    ensures next[n] <= n && Linked(PushNext(next, n, b), PushPrev(next, prev, n, b), [b] + order, n)
  {
    Pushed(next, prev, order, n, b);
  }

  lemma NoStamps(stamp: seq<nat>, time: nat)
    requires forall x :: 0 <= x < |stamp| ==> stamp[x] <= time
    ensures Stamped([], stamp, time)
  {
  }

  lemma PushStamped(order: seq<nat>, stamp: seq<nat>, b: nat, time: nat)
    requires Stamped(order, stamp, time) && b < |stamp| && b !in order
    ensures Stamped([b] + order, stamp[b := time + 1], time + 1)
  {
    PushByStamp(order, stamp, b, time + 1);
  }

  /** The list with the buffer at position `k` moved to the front. */
  ghost function Front(order: seq<nat>, k: nat): seq<nat>
    requires k < |order|
  {
    [order[k]] + Without(order, k)
  }

  ghost predicate IsFront(order: seq<nat>, b: nat, order': seq<nat>) {
    exists k: nat {:trigger Front(order, k)} :: k < |order| && order[k] == b && order' == Front(order, k)
  }

  lemma FrontOk(next: seq<nat>, prev: seq<nat>, order: seq<nat>, n: nat, k: nat, stamp: seq<nat>, time: nat)
    requires |next| == |prev| == n + 1 && Linked(next, prev, order, n) && Covers(order, n) && k < n
    requires |stamp| == n && Stamped(order, stamp, time)
    ensures order[k] < n && prev[order[k]] <= n && next[order[k]] <= n && next[order[k]] != order[k]
    ensures var next1, prev1 := UnlinkNext(next, prev, order[k]), UnlinkPrev(next, prev, order[k]);
            && next1[n] <= n
            && Linked(PushNext(next1, n, order[k]), PushPrev(next1, prev1, n, order[k]), Front(order, k), n)
    ensures Covers(Front(order, k), n) && Stamped(Front(order, k), stamp[order[k] := time + 1], time + 1)
    ensures multiset(Front(order, k)) == multiset(order)
  {
    Unlinked(next, prev, order, n, k);
    Neighbours(next, prev, order, n, k);
    Pushed(UnlinkNext(next, prev, order[k]), UnlinkPrev(next, prev, order[k]), Without(order, k), n, order[k]);
    FrontByStamp(order, stamp, k, time + 1);
    FrontCovers(order, n, k);
    FrontPermutes(order, k);
  }

  lemma StepSize(s: Cache)
    requires Inv(s)
    ensures |s.uses| == |s.bufs|
  {
  }

  lemma InvAt(s: Cache, b: nat)
    requires Inv(s) && b < |s.bufs|
    ensures |s.uses| == |s.bufs| && BufOk(s, b)
  {
  }

  // ----- bread and brelse by their effect -----

  ghost predicate NotHeld(s: Cache, k: Key) {
    |s.uses| == |s.bufs| && forall b :: 0 <= b < |s.bufs| && s.bufs[b].key == k ==> !s.uses[b].held
  }

  ghost predicate SomeFree(s: Cache) { exists b :: 0 <= b < |s.bufs| && s.bufs[b].refcnt == 0 }

  /** Buffer `r` is now held for block `k` with its latest contents. A buffer that held
      another block was in nobody's use. */
  ghost predicate Got(s: Cache, s': Cache, k: Key, r: nat) {
    && r < |s.bufs| == |s.uses| && |s'.bufs| == |s.bufs|
    && s'.disk == s.disk && s'.logged == s.logged
    && !s.uses[r].held && s'.uses == s.uses[r := Use(s.uses[r].users + 1, true, false)]
    && s'.bufs == s.bufs[r := s'.bufs[r]]
    && s'.bufs[r].key == k && s'.bufs[r].valid && s'.bufs[r].refcnt == s.bufs[r].refcnt + 1
    && Known(s, k) && s'.bufs[r].data == Latest(s, k)
    && (s.bufs[r].key != k ==> s.bufs[r].refcnt == 0 && !Cached(s, k))
  }

  class BufferCache {
    const n: nat
    const buf: array<Buf>
    const next: array<nat>
    const prev: array<nat>
    var disk: map<Key, Data>
    ghost var uses: seq<Use>
    ghost var logged: map<Key, Data>
    ghost var order: seq<nat>
    ghost var stamp: seq<nat>
    ghost var time: nat
    /** Every block write so far. */
    ghost var writes: seq<BlockWrite>

    ghost function S(): Cache
      reads `uses, `disk, `logged, buf
    {
      Cache(buf[..], uses, disk, logged)
    }

    /** The list is all buffers, most recently moved to the front first. */
    ghost predicate ListOk()
      reads `order, `stamp, `time, next, prev
    {
      && next.Length == prev.Length == n + 1 && next != prev
      && Linked(next[..], prev[..], order, n) && Covers(order, n)
      && |stamp| == n && Stamped(order, stamp, time)
    }

    ghost predicate Valid()
      reads this, buf, next, prev
    {
      buf.Length == n && Inv(S()) && ListOk()
    }

    /** binit. */
    constructor (nbuf: nat, disk0: map<Key, Data>)
      ensures Valid() && n == nbuf && Start(S()) && disk == disk0 && writes == []
      ensures fresh(buf) && fresh(next) && fresh(prev)
    {
      n := nbuf;
      buf := new Buf[nbuf](_ => Buf(Key(0, 0), false, 0, []));
      next := new nat[nbuf + 1];
      prev := new nat[nbuf + 1];
      disk, logged := disk0, map[];
      uses := seq(nbuf, _ => Use(0, false, false));
      stamp := seq(nbuf, _ => 0);
      order, time, writes := [], 0, [];
      new;
      BuildList();
      StartInv(S());
    }

    /** The loop of binit: each buffer is pushed to the front of the list. */
    method BuildList()
      requires next.Length == prev.Length == n + 1 && next != prev && |stamp| == n && order == []
      requires forall x :: 0 <= x < n ==> stamp[x] <= time
      modifies next, prev, `order, `stamp, `time
      ensures ListOk()
    {
      hide Linked, Stamped;
      next[n], prev[n] := n, n;
      EmptyList(next[..], prev[..], n);
      NoStamps(stamp, time);
      for b := 0 to n
        invariant |stamp| == n && Linked(next[..], prev[..], order, n)
        invariant Numbered(order, b) && Stamped(order, stamp, time)
      {
        NextFree(order, next[..], prev[..], b, n);
        PushFront(b);
        PushStamped(order, stamp, b, time);
        time, stamp, order := time + 1, stamp[b := time + 1], [b] + order;
      }
      NumberedCovers(order, n);
    }

    method PushFront(b: nat)
      requires next.Length == prev.Length == n + 1 && next != prev && b < n && next[n] <= n
      modifies next, prev
      ensures next[..] == PushNext(old(next[..]), n, b) && prev[..] == PushPrev(old(next[..]), old(prev[..]), n, b)
    {
      next[b] := next[n];
      prev[b] := n;
      prev[next[n]] := b;
      next[n] := b;
    }

    /** bget while it holds the cache lock: the buffer of the block if there is one, else
        the unused buffer that was used longest ago; -1, a panic, only if none is unused. */
    method Bget(k: Key) returns (r: int)
      requires Valid() && k.dev != 0
      modifies buf, `uses
      ensures Valid()
      ensures r == -1 <==> !Cached(old(S()), k) && forall b :: 0 <= b < n ==> old(buf[b]).refcnt > 0
      ensures r == -1 ==> S() == old(S())
      ensures r != -1 ==> 0 <= r < n
      ensures r != -1 && Cached(old(S()), k) ==> old(buf[r]).key == k && S() == Next(old(S()), Hit(r))
      ensures r != -1 && !Cached(old(S()), k) ==>
                && Enabled(old(S()), Recycle(r, k)) && S() == Next(old(S()), Recycle(r, k))
                && forall b :: 0 <= b < n && b != r && old(buf[b]).refcnt == 0 ==> stamp[b] > stamp[r]
    {
      hide Inv, ListOk;
      StepSize(S());
      r := Find(k);
      if r != -1 {
        ghost var s := TakeStep(Hit(r));
        buf[r] := buf[r].(refcnt := buf[r].refcnt + 1);
        uses := uses[r := uses[r].(users := uses[r].users + 1)];
        assert S() == s;
        return;
      }
      r := LeastRecent();
      if r != -1 {
        ghost var s := TakeStep(Recycle(r, k));
        buf[r] := Buf(k, false, 1, buf[r].data);
        uses := uses[r := Use(1, false, false)];
        assert S() == s;
      }
    }

    lemma TakeStep(t: Step) returns (s: Cache)
      requires Valid() && Enabled(S(), t)
      ensures s == Next(S(), t) && Inv(s)
    {
      NextKeepsInv(S(), t);
      s := Next(S(), t);
    }

    /** The first loop of bget, from the front of the list. */
    method Find(k: Key) returns (r: int)
      requires Valid()
      ensures if r == -1 then !Cached(S(), k) else 0 <= r < n && buf[r].key == k
    {
      ghost var i := 0;
      assert LinkAt(next[..], prev[..], order, n, 0);
      r := next[n];
      while r != n
        invariant 0 <= i <= n && r == Node(order, n, i)
        invariant forall j :: 0 <= j < i ==> buf[order[j]].key != k
        decreases n - i
      {
        if buf[r].key == k {
          return;
        }
        assert LinkAt(next[..], prev[..], order, n, i + 1);
        r := next[r];
        i := i + 1;
      }
      forall b | 0 <= b < n ensures buf[..][b].key != k {
        assert b in order;
      }
      r := -1;
    }

    /** The second loop of bget, from the back of the list. */
    method LeastRecent() returns (r: int)
      requires Valid()
      ensures r == -1 ==> forall b :: 0 <= b < n ==> buf[b].refcnt > 0
      ensures r != -1 ==>
                && 0 <= r < n && buf[r].refcnt == 0
                && forall b :: 0 <= b < n && b != r && buf[b].refcnt == 0 ==> stamp[b] > stamp[r]
    {
      ghost var i := n - 1;
      assert LinkAt(next[..], prev[..], order, n, n);
      r := prev[n];
      while r != n
        invariant -1 <= i < n && r == Node(order, n, i)
        invariant forall j :: i < j < n ==> buf[order[j]].refcnt > 0
        decreases i + 1
      {
        if buf[r].refcnt == 0 {
          forall b | 0 <= b < n && b != r && buf[b].refcnt == 0 ensures stamp[b] > stamp[r] {
            assert b in order;
          }
          return;
        }
        assert LinkAt(next[..], prev[..], order, n, i);
        r := prev[r];
        i := i - 1;
      }
      forall b | 0 <= b < n ensures buf[b].refcnt > 0 {
        assert b in order;
      }
      r := -1;
    }

    /** The rest of bread once the buffer is locked: it has the latest contents. */
    method Bread(b: nat) returns (d: Data)
      requires Valid() && b < n && Enabled(S(), Lock(b))
      requires buf[b].valid || (buf[b].key in disk && buf[b].key.dev != 0)
      modifies buf, `uses
      ensures Valid() && uses[b] == old(uses[b]).(held := true)
      ensures Known(S(), buf[b].key) && d == buf[b].data == Latest(S(), buf[b].key)
      ensures S() == if old(buf[b]).valid then Next(old(S()), Lock(b)) else Next(Next(old(S()), Lock(b)), Fill(b))
    {
      hide Inv, ListOk;
      StepSize(S());
      ghost var s := TakeStep(Lock(b));
      uses := uses[b := uses[b].(held := true)];
      assert S() == s;
      if !buf[b].valid {
        s := TakeStep(Fill(b));
        buf[b] := buf[b].(valid := true, data := disk[buf[b].key]);
        assert S() == s;
      }
      InvAt(old(S()), b);
      InvAt(S(), b);
      d := buf[b].data;
    }

    /** The whole of bread when nobody holds the lock of the block's buffer; -1 where
        bget panics, exactly if the block is not cached and every buffer is in use. */
    method BreadBlock(k: Key) returns (r: int)
      requires Valid() && k.dev != 0 && k in disk && NotHeld(S(), k)
      modifies buf, `uses
      ensures Valid()
      ensures r == -1 <==> !Cached(old(S()), k) && !SomeFree(old(S()))
      ensures r == -1 ==> S() == old(S())
      ensures r != -1 ==> 0 <= r < n && Got(old(S()), S(), k, r)
    {
      hide Inv, ListOk;
      StepSize(S());
      ghost var s := S();
      r := Bget(k);
      if r == -1 {
        return;
      }
      InvAt(s, r);
      var _ := Bread(r);
    }

    /** A client changes the data of a buffer it has locked. */
    method Change(b: nat, d: Data)
      requires Valid() && b < n && Enabled(S(), Modify(b, d))
      modifies buf, `uses
      ensures Valid() && S() == Next(old(S()), Modify(b, d))
      ensures buf[..] == old(buf[..])[b := old(buf[b]).(data := d)]
    {
      hide Inv, ListOk;
      StepSize(S());
      ghost var s := TakeStep(Modify(b, d));
      buf[b] := buf[b].(data := d);
      uses := uses[b := uses[b].(dirty := true)];
      assert S() == s;
    }

    method Bwrite(b: nat)
      requires Valid() && b < n && Enabled(S(), BufCache.Bwrite(b))
      modifies `disk, `uses, `writes
      ensures Valid() && S() == Next(old(S()), BufCache.Bwrite(b))
      ensures disk == old(disk)[buf[b].key := buf[b].data]
      ensures writes == old(writes) + [BlockWrite(buf[b].key, buf[b].data)]
    {
      hide Inv, ListOk;
      StepSize(S());
      ghost var s := TakeStep(BufCache.Bwrite(b));
      disk := disk[buf[b].key := buf[b].data];
      uses := uses[b := uses[b].(dirty := false)];
      writes := writes + [BlockWrite(buf[b].key, buf[b].data)];
      assert buf[..] == s.bufs;
    }

    /** log_write of a buffer: bpin, unless the block is in the log already. */
    method LogWrite(b: nat, inLog: bool)
      requires Valid() && b < n && Enabled(S(), BufCache.LogWrite(b)) && (inLog <==> buf[b].key in logged)
      modifies buf, `uses, `logged
      ensures Valid() && S() == Next(old(S()), BufCache.LogWrite(b))
      ensures logged == old(logged)[buf[b].key := buf[b].data]
      ensures buf[..] == old(buf[..])[b := old(buf[b]).(refcnt := old(buf[b].refcnt) + if inLog then 0 else 1)]
    {
      hide Inv, ListOk;
      StepSize(S());
      ghost var s := TakeStep(BufCache.LogWrite(b));
      ghost var d := buf[b].data;
      if !inLog {
        buf[b] := buf[b].(refcnt := buf[b].refcnt + 1);
      }
      logged := logged[buf[b].key := d];
      uses := uses[b := uses[b].(dirty := false)];
      assert buf[..] == s.bufs;
    }

    /** bunpin, as install_trans calls it after the block has gone to its home. */
    method Bunpin(b: nat)
      requires Valid() && b < n && Enabled(S(), Unpin(b))
      modifies buf, `logged
      ensures Valid() && S() == Next(old(S()), Unpin(b))
      ensures old(buf[b].refcnt) > 0 && buf[..] == old(buf[..])[b := old(buf[b]).(refcnt := old(buf[b].refcnt) - 1)]
    {
      hide Inv, ListOk;
      StepSize(S());
      ghost var s := TakeStep(Unpin(b));
      buf[b] := buf[b].(refcnt := buf[b].refcnt - 1);
      logged := logged - {buf[b].key};
      assert buf[..] == s.bufs && uses == s.uses;
    }

    /** brelse; a buffer nobody uses any more goes to the front of the list. */
    method Brelse(b: nat)
      requires Valid() && b < n && Enabled(S(), Unlock(b))
      modifies buf, next, prev, `uses, `order, `stamp, `time
      ensures Valid() && Enabled(Next(old(S()), Unlock(b)), Drop(b)) && S() == Next(Next(old(S()), Unlock(b)), Drop(b))
      ensures old(buf[b].refcnt) > 0 && buf[..] == old(buf[..])[b := old(buf[b]).(refcnt := old(buf[b].refcnt) - 1)]
      ensures |uses| == |old(uses)| == n && !uses[b].held
      ensures buf[b].refcnt > 0 ==> order == old(order) && stamp == old(stamp)
      ensures buf[b].refcnt == 0 ==> IsFront(old(order), b, order)
      ensures multiset(order) == multiset(old(order))
    {
      hide Inv, ListOk;
      InvAt(S(), b);
      ghost var s := TakeStep(Unlock(b));
      uses := uses[b := uses[b].(held := false)];
      assert S() == s;
      s := TakeStep(Drop(b));
      buf[b] := buf[b].(refcnt := buf[b].refcnt - 1);
      uses := uses[b := uses[b].(users := uses[b].users - 1)];
      assert S() == s;
      if buf[b].refcnt == 0 {
        MoveToFront(b);
      }
    }

    method MoveToFront(b: nat)
      requires ListOk() && b < n
      modifies next, prev, `order, `stamp, `time
      ensures ListOk()
      ensures IsFront(old(order), b, order)
      ensures multiset(order) == multiset(old(order))
    {
      hide Linked, Covers, Stamped;
      ghost var k := Position(order, n, b);
      FrontOk(next[..], prev[..], order, n, k, stamp, time);
      ghost var next1, prev1 := UnlinkNext(next[..], prev[..], b), UnlinkPrev(next[..], prev[..], b);
      prev[next[b]] := prev[b];
      next[prev[b]] := next[b];
      assert next[..] == next1 && prev[..] == prev1;
      PushFront(b);
      order, stamp, time := Front(order, k), stamp[b := time + 1], time + 1;
    }
  }

  lemma Position(order: seq<nat>, n: nat, b: nat) returns (k: nat)
    requires Covers(order, n) && b < n
    ensures |order| == n && k < n && order[k] == b
  {
    assert b in order;
    k :| k < n && order[k] == b;
  }
}

/** The buffer cache of kernel/bio.c with its clients, as steps: what the buffers hold
    against the latest contents of every block. */
module BufCache {

  datatype Key = Key(dev: nat, blockno: nat)

  type Data = seq<int>

  datatype Buf = Buf(key: Key, valid: bool, refcnt: nat, data: Data)

  /** Of each buffer: how many processes have it from bget and have not released it,
      whether one of these holds its sleep lock, and whether that one has changed the
      data and neither logged nor written it yet. */
  datatype Use = Use(users: nat, held: bool, dirty: bool)

  /** `logged` are the blocks of the open transaction with the contents last logged. */
  datatype Cache = Cache(bufs: seq<Buf>, uses: seq<Use>, disk: map<Key, Data>, logged: map<Key, Data>)

  /** One block write of bwrite. */
  datatype BlockWrite = BlockWrite(key: Key, data: Data)

  ghost predicate Known(s: Cache, k: Key) { k in s.logged || k in s.disk }

  /** The latest contents of a block: as logged, else as on disk. */
  ghost function Latest(s: Cache, k: Key): Data
    requires Known(s, k)
  {
    if k in s.logged then s.logged[k] else s.disk[k]
  }

  // ----- Invariant -----

  ghost predicate BufOk(s: Cache, b: nat)
    requires b < |s.bufs| == |s.uses|
  {
    var x, u := s.bufs[b], s.uses[b];
    && x.refcnt == u.users + (if x.key in s.logged then 1 else 0)
    && (u.held ==> u.users > 0)
    && (u.dirty ==> u.held && x.valid)
    && (x.key in s.logged ==> x.valid)
    && (x.valid ==> Known(s, x.key) && x.key.dev != 0)
    && (x.valid && !u.dirty ==> x.data == Latest(s, x.key))
  }

  ghost predicate Apart(s: Cache, a: nat, b: nat)
    requires a < |s.bufs| && b < |s.bufs|
  {
    a != b && s.bufs[a].key.dev != 0 ==> s.bufs[a].key != s.bufs[b].key
  }

  ghost predicate Cached(s: Cache, k: Key) { exists b :: 0 <= b < |s.bufs| && s.bufs[b].key == k }

  ghost predicate LogOk(s: Cache, k: Key) { k in s.logged ==> k.dev != 0 && k in s.disk && Cached(s, k) }

  ghost predicate Inv(s: Cache) {
    && |s.bufs| == |s.uses|
    && (forall b: nat {:trigger BufOk(s, b)} :: b < |s.bufs| ==> BufOk(s, b))
    && (forall a: nat, b: nat {:trigger Apart(s, a, b)} :: a < |s.bufs| && b < |s.bufs| ==> Apart(s, a, b))
    && (forall k {:trigger LogOk(s, k)} :: LogOk(s, k))
  }

  // ----- Steps -----

  datatype Step =
    | Hit(b: nat)
    | Recycle(b: nat, k: Key)
    | Lock(b: nat)
    | Fill(b: nat)
    | Modify(b: nat, d: Data)
    | LogWrite(b: nat)
    | Bwrite(b: nat)
    | Unpin(b: nat)
    | Unlock(b: nat)
    | Drop(b: nat)

  function Set(s: Cache, b: nat, x: Buf, u: Use): Cache
    requires b < |s.bufs| == |s.uses|
  {
    s.(bufs := s.bufs[b := x], uses := s.uses[b := u])
  }

  ghost predicate Enabled(s: Cache, t: Step) {
    && t.b < |s.bufs| == |s.uses|
    && var x, u := s.bufs[t.b], s.uses[t.b];
       match t
       case Hit(b) => true
       case Recycle(b, k) => k.dev != 0 && x.refcnt == 0 && !Cached(s, k)
       case Lock(b) => u.users > 0 && !u.held
       case Fill(b) => u.held && !x.valid && x.key in s.disk && x.key.dev != 0
       case Modify(b, d) => u.held && x.valid
       case LogWrite(b) => u.held && x.valid && x.key in s.disk
       case Bwrite(b) => u.held && x.valid && (x.key in s.logged ==> x.data == s.logged[x.key])
       case Unpin(b) => x.key in s.logged && x.key in s.disk && s.disk[x.key] == s.logged[x.key] && x.refcnt > 0
       case Unlock(b) => u.held && !u.dirty
       case Drop(b) => u.users > (if u.held then 1 else 0) && x.refcnt > 0
  }

  ghost function Next(s: Cache, t: Step): Cache
    requires Enabled(s, t)
  {
    var x, u := s.bufs[t.b], s.uses[t.b];
    match t
    case Hit(b) => Set(s, b, x.(refcnt := x.refcnt + 1), u.(users := u.users + 1))
    case Recycle(b, k) => Set(s, b, Buf(k, false, 1, x.data), Use(1, false, false))
    case Lock(b) => Set(s, b, x, u.(held := true))
    case Fill(b) => Set(s, b, x.(valid := true, data := s.disk[x.key]), u)
    case Modify(b, d) => Set(s, b, x.(data := d), u.(dirty := true))
    case LogWrite(b) =>
      var pinned := if x.key in s.logged then x else x.(refcnt := x.refcnt + 1);
      Set(s, b, pinned, u.(dirty := false)).(logged := s.logged[x.key := x.data])
    case Bwrite(b) => Set(s, b, x, u.(dirty := false)).(disk := s.disk[x.key := x.data])
    case Unpin(b) => Set(s, b, x.(refcnt := x.refcnt - 1), u).(logged := s.logged - {x.key})
    case Unlock(b) => Set(s, b, x, u.(held := false))
    case Drop(b) => Set(s, b, x.(refcnt := x.refcnt - 1), u.(users := u.users - 1))
  }

  lemma NextBufOk(s: Cache, t: Step, b: nat)
    requires Inv(s) && Enabled(s, t) && b < |s.bufs|
    ensures |Next(s, t).bufs| == |Next(s, t).uses| == |s.bufs| && BufOk(Next(s, t), b)
  {
    assert BufOk(s, t.b) && LogOk(s, s.bufs[t.b].key);
    assert BufOk(s, b) && Apart(s, t.b, b);
    assert t.Recycle? ==> LogOk(s, t.k);
  }

  lemma NextLogOk(s: Cache, t: Step, k: Key)
    requires Inv(s) && Enabled(s, t)
    ensures LogOk(Next(s, t), k)
  {
    var s' := Next(s, t);
    assert BufOk(s, t.b) && LogOk(s, k);
    if k in s'.logged {
      if k == s.bufs[t.b].key {
        assert s'.bufs[t.b].key == k;
      } else {
        var b :| 0 <= b < |s.bufs| && s.bufs[b].key == k;
        assert s'.bufs[b].key == k;
      }
    }
  }

  lemma NextKeepsInv(s: Cache, t: Step)
    requires Inv(s) && Enabled(s, t)
    ensures Inv(Next(s, t)) && |Next(s, t).bufs| == |s.bufs|
  {
    hide BufOk, LogOk;
    var s' := Next(s, t);
    forall b: nat | b < |s.bufs| ensures |s'.bufs| == |s'.uses| == |s.bufs| && BufOk(s', b) {
      NextBufOk(s, t, b);
    }
    forall a: nat, b: nat | a < |s'.bufs| && b < |s'.bufs| ensures Apart(s', a, b) {
      assert Apart(s, a, b);
    }
    forall k ensures LogOk(s', k) {
      NextLogOk(s, t, k);
    }
  }

  // ----- All runs -----

  ghost predicate Runs(s: Cache, steps: seq<Step>, s': Cache)
    decreases |steps|
  {
    if steps == [] then s' == s else Enabled(s, steps[0]) && Runs(Next(s, steps[0]), steps[1..], s')
  }

  /** After binit every buffer is free and none is valid. */
  ghost predicate Start(s: Cache) {
    && |s.bufs| == |s.uses| && s.logged == map[]
    && forall b :: 0 <= b < |s.bufs| ==>
         s.bufs[b].key == Key(0, 0) && !s.bufs[b].valid && s.bufs[b].refcnt == 0 && s.uses[b] == Use(0, false, false)
  }

  lemma StartInv(s: Cache)
    requires Start(s)
    ensures Inv(s)
  {
  }

  lemma {:induction false} RunsKeepInv(s: Cache, steps: seq<Step>, s': Cache)
    requires Inv(s) && Runs(s, steps, s')
    ensures Inv(s')
    decreases |steps|
  {
    hide Inv;
    if steps != [] {
      NextKeepsInv(s, steps[0]);
      RunsKeepInv(Next(s, steps[0]), steps[1..], s');
    }
  }

  /** In every run, whoever holds a valid buffer it has not changed sees the latest
      contents of its block, and no other buffer holds that block. */
  lemma ReadersSeeLatest(s: Cache, steps: seq<Step>, s': Cache, b: nat, c: nat)
    requires Start(s) && Runs(s, steps, s') && b < |s'.bufs| == |s'.uses| && c < |s'.bufs|
    requires s'.bufs[b].valid && !s'.uses[b].dirty
    ensures Known(s', s'.bufs[b].key) && s'.bufs[b].data == Latest(s', s'.bufs[b].key)
    ensures c != b ==> s'.bufs[c].key != s'.bufs[b].key
  {
    StartInv(s);
    RunsKeepInv(s, steps, s');
    assert BufOk(s', b) && Apart(s', b, c);
  }

  /** A block of the open transaction stays in the cache, in a buffer bget cannot recycle. */
  lemma PinnedStays(s: Cache, steps: seq<Step>, s': Cache, k: Key)
    requires Start(s) && Runs(s, steps, s') && k in s'.logged
    ensures exists b :: 0 <= b < |s'.bufs| && s'.bufs[b].key == k && s'.bufs[b].valid && s'.bufs[b].refcnt > 0
  {
    StartInv(s);
    RunsKeepInv(s, steps, s');
    assert LogOk(s', k);
    var b :| 0 <= b < |s'.bufs| && s'.bufs[b].key == k;
    assert BufOk(s', b);
  }

  /** Making a transaction permanent does not change what readers see. */
  lemma UnpinKeepsLatest(s: Cache, t: Step, k: Key)
    requires Inv(s) && Enabled(s, t) && t.Unpin? && Known(s, k)
    ensures Known(Next(s, t), k) && Latest(Next(s, t), k) == Latest(s, k)
  {
  }

  /** The latest contents of a block change only when that block is logged or written. */
  lemma LatestChanges(s: Cache, t: Step, k: Key)
    requires Inv(s) && Enabled(s, t) && Known(s, k)
    ensures Known(Next(s, t), k)
    ensures Latest(Next(s, t), k) ==
            if (t.LogWrite? || t.Bwrite?) && s.bufs[t.b].key == k then s.bufs[t.b].data else Latest(s, k)
  {
    assert BufOk(s, t.b);
  }
}

/**
 * The token store (internal/auth/tokens.go over internal/storage/tokens.go) at lock granularity.
 * opMu serializes the operations below; each has a database transaction and then, under mu, a
 * publication of the change to the cache. Verify looks a hash up and reads the clock under mu's
 * read lock, and then, still holding it, records the use under usedMu. A run is any interleaving.
 */
module TokenStore {
  import opened Wrappers

  /** A SHA-256 digest; distinct secrets have distinct ones. */
  type Hash = nat

  /** A use in memory, in nanoseconds, and the secret it was made with. */
  datatype Use = Use(at: nat, secret: Hash)

  /** last_used_at, in milliseconds. */
  datatype Stored = Stored(ms: nat, secret: Hash)

  datatype Token = Token(hash: Hash, revoked: bool, lastUsed: Option<Stored>)

  /** The holder of opMu, and what it still has to do. */
  datatype Op =
    | Free
    | Reloading(hashes: map<Hash, int>, total: nat)
    | Adding(hash: Hash, id: int)          // Create or Seed, committed
    | Revoking(id: int)
    | Regenerating(id: int, hash: Hash)
    | Flushing(taken: map<int, Use>)
    | PuttingBack(taken: map<int, Use>)

  /** A Verify between its lookup and its record, holding mu for reading. */
  datatype Reading = Reading(id: int, secret: Hash, now: nat)

  datatype State = State(
    rows: map<int, Token>, retired: set<Hash>,                     // api_tokens and api_token_retired_hashes
    hashes: map<Hash, int>, total: nat, used: map<int, Use>,       // the cache
    op: Op, readers: map<int, Reading>, clock: nat)

  datatype Step =
    | ReloadRead
    | CreateCommit(hash: Hash, id: int)
    | SeedCommit(hash: Hash, id: int)
    | RevokeCommit(id: int)
    | RegenerateCommit(id: int, hash: Hash)
    | FlushTake
    | FlushCommit
    | FlushFail
    | FlushPutBack
    | Publish
    | VerifyLookup(thread: int, secret: Hash)
    | VerifyRecord(thread: int)
    | Tick(later: nat)

  /** The hashes the database knows, active, revoked or retired. */
  ghost predicate Known(s: State, hash: Hash) {
    hash in s.retired || exists id :: id in s.rows && s.rows[id].hash == hash
  }

  /** The map TokenHashes reads is the active rows. */
  ghost predicate IsActiveMap(hashes: map<Hash, int>, rows: map<int, Token>) {
    && (forall h :: h in hashes ==> hashes[h] in rows && rows[hashes[h]].hash == h && !rows[hashes[h]].revoked)
    && (forall id :: id in rows && !rows[id].revoked ==> rows[id].hash in hashes && hashes[rows[id].hash] == id)
  }

  ghost predicate Enabled(s: State, step: Step) {
    match step
    case ReloadRead => s.op.Free?
    case CreateCommit(hash, id) => s.op.Free? && id !in s.rows && !Known(s, hash)
    case SeedCommit(hash, id) => s.op.Free? && id !in s.rows && !Known(s, hash)
    case RevokeCommit(id) => s.op.Free? && id in s.rows
    case RegenerateCommit(id, hash) => s.op.Free? && id in s.rows && !Known(s, hash)
    case FlushTake => s.op.Free?
    case FlushCommit => s.op.Flushing?
    case FlushFail => s.op.Flushing?
    case FlushPutBack => s.op.PuttingBack?
    case Publish =>
      s.readers == map[] && (s.op.Reloading? || s.op.Adding? || s.op.Revoking? || s.op.Regenerating?)
    case VerifyLookup(thread, secret) => thread !in s.readers && secret in s.hashes
    case VerifyRecord(thread) => thread in s.readers
    case Tick(later) => later >= s.clock
  }

  function Ms(at: nat): nat { at / 1000000 }

  /** TouchTokens on one row: MAX(COALESCE(last_used_at, 0), ?). */
  function Touched(t: Token, use: Use): Token {
    if t.lastUsed.Some? && t.lastUsed.value.ms >= Ms(use.at) then t
    else t.(lastUsed := Some(Stored(Ms(use.at), use.secret)))
  }

  /** removeHash. */
  function WithoutId(hashes: map<Hash, int>, id: int): map<Hash, int> {
    map h | h in hashes && hashes[h] != id :: hashes[h]
  }

  /** The put-back of a failed flush: a time goes back unless a later one was recorded since. */
  function Restored(used: map<int, Use>, taken: map<int, Use>): map<int, Use> {
    map id | id in used.Keys + taken.Keys ::
      if id in taken && (id !in used || taken[id].at > used[id].at) then taken[id] else used[id]
  }

  function ReadHashes(rows: map<int, Token>): map<Hash, int>
    requires Unique(rows)
  {
    map id | id in rows && !rows[id].revoked :: rows[id].hash := id
  }

  predicate Unique(rows: map<int, Token>) {
    forall i, j :: i in rows && j in rows && rows[i].hash == rows[j].hash ==> i == j
  }

  function Published(s: State): State {
    match s.op
    case Reloading(hashes, total) => s.(hashes := hashes, total := total, op := Free)
    case Adding(hash, id) => s.(hashes := s.hashes[hash := id], total := s.total + 1, op := Free)
    case Revoking(id) => s.(hashes := WithoutId(s.hashes, id), op := Free)
    case Regenerating(id, hash) => s.(used := s.used - {id}, hashes := WithoutId(s.hashes, id)[hash := id], op := Free)
    case _ => s
  }

  ghost function Next(s: State, step: Step): State
    requires Unique(s.rows) && Enabled(s, step)
  {
    match step
    case ReloadRead => s.(op := Reloading(ReadHashes(s.rows), |s.rows.Keys|))
    case CreateCommit(hash, id) => s.(rows := s.rows[id := Token(hash, false, None)], op := Adding(hash, id))
    case SeedCommit(hash, id) => s.(rows := s.rows[id := Token(hash, false, None)], op := Adding(hash, id))
    case RevokeCommit(id) => s.(rows := s.rows[id := s.rows[id].(revoked := true)], op := Revoking(id))
    case RegenerateCommit(id, hash) =>
      s.(retired := s.retired + {s.rows[id].hash}, rows := s.rows[id := Token(hash, false, None)],
         op := Regenerating(id, hash))
    case FlushTake => s.(op := Flushing(s.used), used := map[])
    case FlushCommit =>
      s.(rows := map id | id in s.rows :: if id in s.op.taken then Touched(s.rows[id], s.op.taken[id]) else s.rows[id],
         op := Free)
    case FlushFail => s.(op := PuttingBack(s.op.taken))
    case FlushPutBack => s.(used := Restored(s.used, s.op.taken), op := Free)
    case Publish => Published(s)
    case VerifyLookup(thread, secret) => s.(readers := s.readers[thread := Reading(s.hashes[secret], secret, s.clock)])
    case VerifyRecord(thread) =>
      var r := s.readers[thread];
      s.(used := s.used[r.id := Use(r.now, r.secret)], readers := s.readers - {thread})
    case Tick(later) => s.(clock := later)
  }

  /** The store right after NewTokenStore has loaded whatever the database holds. */
  ghost predicate Init(s: State) {
    && RowsOk(s) && s.op.Free? && s.readers == map[] && s.used == map[]
    && IsActiveMap(s.hashes, s.rows) && s.total == |s.rows.Keys|
  }

  // Invariants.

  /** Hashes are unique, none in use is retired, and a stored time was recorded under the row's own secret. */
  ghost predicate RowsOk(s: State) {
    && Unique(s.rows)
    && (forall id :: id in s.rows ==> s.rows[id].hash !in s.retired)
    && (forall id :: id in s.rows && s.rows[id].lastUsed.Some? ==> s.rows[id].lastUsed.value.secret == s.rows[id].hash)
  }

  predicate PendingFor(op: Op, id: int) {
    match op
    case Adding(_, i) => i == id
    case Revoking(i) => i == id
    case Regenerating(i, _) => i == id
    case _ => false
  }

  /** The cache is the active rows, but for the token of a committed change that is yet to be published. */
  ghost predicate CacheOk(s: State) {
    && (forall h :: h in s.hashes ==> s.hashes[h] in s.rows)
    && (forall h :: h in s.hashes && !PendingFor(s.op, s.hashes[h]) ==>
          s.rows[s.hashes[h]].hash == h && !s.rows[s.hashes[h]].revoked)
    && (forall id :: id in s.rows && !s.rows[id].revoked && !PendingFor(s.op, id) ==>
          s.rows[id].hash in s.hashes && s.hashes[s.rows[id].hash] == id)
    && s.total + (if s.op.Adding? then 1 else 0) == |s.rows.Keys|
    && match s.op
       case Reloading(hashes, total) => IsActiveMap(hashes, s.rows) && total == |s.rows.Keys|
       case Adding(hash, id) =>
         id in s.rows && s.rows[id].hash == hash && !s.rows[id].revoked && hash !in s.hashes
         && forall h :: h in s.hashes ==> s.hashes[h] != id
       case Revoking(id) =>
         id in s.rows && s.rows[id].revoked && forall h :: h in s.hashes && s.hashes[h] == id ==> h == s.rows[id].hash
       case Regenerating(id, hash) =>
         id in s.rows && s.rows[id].hash == hash && !s.rows[id].revoked && hash !in s.hashes
       case _ => true
  }

  /** A use of a token is attributed to its current secret, unless a regeneration is yet to be published. */
  ghost predicate UseOk(s: State, id: int, secret: Hash) {
    id in s.rows && ((s.op.Regenerating? && s.op.id == id) || s.rows[id].hash == secret)
  }

  ghost predicate UsesOk(s: State) {
    && (forall id :: id in s.used ==> UseOk(s, id, s.used[id].secret))
    && (forall t :: t in s.readers ==>
          && s.readers[t].secret in s.hashes && s.hashes[s.readers[t].secret] == s.readers[t].id
          && s.readers[t].now <= s.clock)
    && (forall id :: id in Taken(s) ==> UseOk(s, id, Taken(s)[id].secret))
  }

  /** The times a flush has taken out of the map and not yet stored or put back. */
  function Taken(s: State): map<int, Use> {
    match s.op
    case Flushing(taken) => taken
    case PuttingBack(taken) => taken
    case _ => map[]
  }

  ghost predicate Inv(s: State) { RowsOk(s) && CacheOk(s) && UsesOk(s) }

  lemma InitInv(s: State)
    requires Init(s)
    ensures Inv(s)
  {
  }

  lemma ReadHashesIsActiveMap(rows: map<int, Token>)
    requires Unique(rows)
    ensures IsActiveMap(ReadHashes(rows), rows)
  {
  }

  lemma RowsStayOk(s: State, step: Step)
    requires Inv(s) && Enabled(s, step)
    ensures RowsOk(Next(s, step))
  {
    if step.FlushCommit? {
      forall id | id in s.op.taken ensures UseOk(s, id, s.op.taken[id].secret) {
        assert id in Taken(s);
      }
    }
  }

  lemma CacheStaysOk(s: State, step: Step)
    requires Inv(s) && Enabled(s, step)
    ensures CacheOk(Next(s, step))
  {
    match step
    case ReloadRead => ReadHashesIsActiveMap(s.rows);
    case CreateCommit(hash, id) => AddRow(s, hash, id);
    case SeedCommit(hash, id) => AddRow(s, hash, id);
    case RevokeCommit(id) => RevokeRow(s, id);
    case RegenerateCommit(id, hash) => RegenerateRow(s, id, hash);
    case FlushCommit => assert Next(s, step).rows.Keys == s.rows.Keys;
    case Publish => PublishKeepsCache(s);
    case _ =>
  }

  lemma RevokeRow(s: State, id: int)
    requires RowsOk(s) && CacheOk(s) && s.op.Free? && id in s.rows
    ensures CacheOk(s.(rows := s.rows[id := s.rows[id].(revoked := true)], op := Revoking(id)))
  {
    assert s.rows[id := s.rows[id].(revoked := true)].Keys == s.rows.Keys;
  }

  lemma RegenerateRow(s: State, id: int, hash: Hash)
    requires RowsOk(s) && CacheOk(s) && s.op.Free? && id in s.rows && !Known(s, hash)
    ensures CacheOk(s.(retired := s.retired + {s.rows[id].hash}, rows := s.rows[id := Token(hash, false, None)],
                       op := Regenerating(id, hash)))
  {
    assert s.rows[id := Token(hash, false, None)].Keys == s.rows.Keys;
    forall h | h in s.hashes ensures h != hash && s.hashes[h] in s.rows {}
  }

  lemma PublishKeepsCache(s: State)
    requires RowsOk(s) && CacheOk(s) && Enabled(s, Publish)
    ensures CacheOk(Published(s))
  {
    match s.op
    case Reloading(_, _) =>
    case Adding(_, _) =>
    case Revoking(_) =>
    case Regenerating(_, _) =>
  }

  lemma AddRow(s: State, hash: Hash, id: int)
    requires RowsOk(s) && CacheOk(s) && s.op.Free? && id !in s.rows && !Known(s, hash)
    ensures CacheOk(s.(rows := s.rows[id := Token(hash, false, None)], op := Adding(hash, id)))
  {
    var rows := s.rows[id := Token(hash, false, None)];
    assert rows.Keys == s.rows.Keys + {id};
    forall h | h in s.hashes ensures h != hash && s.hashes[h] != id && s.hashes[h] in s.rows {}
  }

  lemma UsesStayOk(s: State, step: Step)
    requires Inv(s) && Enabled(s, step)
    ensures UsesOk(Next(s, step))
  {
    match step
    case ReloadRead =>
    case CreateCommit(_, _) =>
    case SeedCommit(_, _) =>
    case RevokeCommit(_) =>
    case RegenerateCommit(_, _) =>
    case FlushTake =>
    case FlushCommit => FlushKeepsUses(s, Next(s, FlushCommit));
    case FlushFail => FlushFailKeepsUses(s);
    case FlushPutBack => PutBackKeepsUses(s);
    case Publish => PublishKeepsUses(s);
    case VerifyLookup(_, _) => ReadersKeepUses(s, Next(s, step));
    case VerifyRecord(thread) => RecordKeepsUses(s, thread);
    case Tick(_) => ReadersKeepUses(s, Next(s, step));
  }

  lemma FlushKeepsUses(s: State, next: State)
    requires Inv(s) && s.op.Flushing? && next == s.(rows := next.rows, op := Free) && next.rows.Keys == s.rows.Keys
    requires forall id :: id in s.rows ==> next.rows[id].hash == s.rows[id].hash
    ensures UsesOk(next)
  {
    forall id | id in next.used ensures UseOk(next, id, next.used[id].secret) {
      assert UseOk(s, id, s.used[id].secret) && id in next.rows.Keys;
    }
  }

  lemma FlushFailKeepsUses(s: State)
    requires Inv(s) && s.op.Flushing?
    ensures UsesOk(s.(op := PuttingBack(s.op.taken)))
  {
    var next := s.(op := PuttingBack(s.op.taken));
    forall id | id in Taken(next) ensures UseOk(next, id, Taken(next)[id].secret) {
      assert UseOk(s, id, Taken(s)[id].secret);
    }
    forall id | id in next.used ensures UseOk(next, id, next.used[id].secret) {
      assert UseOk(s, id, s.used[id].secret);
    }
  }

  lemma PutBackKeepsUses(s: State)
    requires Inv(s) && s.op.PuttingBack?
    ensures UsesOk(s.(used := Restored(s.used, s.op.taken), op := Free))
  {
    var next := s.(used := Restored(s.used, s.op.taken), op := Free);
    forall id | id in next.used ensures UseOk(next, id, next.used[id].secret) {
      assert id in s.used ==> UseOk(s, id, s.used[id].secret);
      assert id in Taken(s) ==> UseOk(s, id, Taken(s)[id].secret);
    }
  }

  lemma PublishKeepsUses(s: State)
    requires Inv(s) && Enabled(s, Publish)
    ensures UsesOk(Published(s))
  {
    var next := Published(s);
    forall id | id in next.used ensures UseOk(next, id, next.used[id].secret) {
      assert UseOk(s, id, s.used[id].secret);
    }
  }

  lemma ReadersKeepUses(s: State, next: State)
    requires Inv(s) && next == s.(readers := next.readers, clock := next.clock) && s.clock <= next.clock
    requires forall t :: t in next.readers && (t !in s.readers || next.readers[t] != s.readers[t]) ==>
               var r := next.readers[t]; r.secret in s.hashes && s.hashes[r.secret] == r.id && r.now <= s.clock
    ensures UsesOk(next)
  {
    forall id | id in next.used ensures UseOk(next, id, next.used[id].secret) {
      assert UseOk(s, id, s.used[id].secret);
    }
    forall id | id in Taken(next) ensures UseOk(next, id, Taken(next)[id].secret) {
      assert UseOk(s, id, Taken(s)[id].secret);
    }
  }

  lemma RecordKeepsUses(s: State, thread: int)
    requires Inv(s) && thread in s.readers
    ensures var r := s.readers[thread];
            UsesOk(s.(used := s.used[r.id := Use(r.now, r.secret)], readers := s.readers - {thread}))
  {
    var r := s.readers[thread];
    var next := s.(used := s.used[r.id := Use(r.now, r.secret)], readers := s.readers - {thread});
    assert UseOk(s, r.id, r.secret);
    forall id | id in next.used ensures UseOk(next, id, next.used[id].secret) {
      assert id == r.id || UseOk(s, id, s.used[id].secret);
    }
    forall id | id in Taken(next) ensures UseOk(next, id, Taken(next)[id].secret) {
      assert UseOk(s, id, Taken(s)[id].secret);
    }
  }

  lemma StepInv(s: State, step: Step)
    requires Inv(s) && Enabled(s, step)
    ensures Inv(Next(s, step))
  {
    hide Next, Enabled, RowsOk, CacheOk, UsesOk;
    RowsStayOk(s, step);
    CacheStaysOk(s, step);
    UsesStayOk(s, step);
  }

  ghost predicate Goes(s: State, step: Step, next: State) {
    Unique(s.rows) && Enabled(s, step) && next == Next(s, step)
  }

  /** A run: every step is enabled and leads to the next state. */
  ghost predicate IsRun(states: seq<State>, steps: seq<Step>) {
    && |states| == |steps| + 1 && Init(states[0])
    && (forall i {:trigger steps[i]} :: 0 <= i < |steps| ==> Goes(states[i], steps[i], states[i + 1]))
  }

  lemma {:induction false} RunInv(states: seq<State>, steps: seq<Step>, i: nat)
    requires IsRun(states, steps) && i < |states|
    ensures Inv(states[i])
  {
    hide Next, Enabled, Inv;
    if i == 0 {
      InitInv(states[0]);
    } else {
      RunInv(states, steps, i - 1);
      StepInv(states[i - 1], steps[i - 1]);
    }
  }

  /**
   * Refinement: whenever no operation holds opMu, the cached hashes are exactly the active tokens
   * of the database and the total is the number of token rows.
   */
  lemma CacheIsDatabase(states: seq<State>, steps: seq<Step>, i: nat)
    requires IsRun(states, steps) && i < |states| && states[i].op.Free?
    ensures IsActiveMap(states[i].hashes, states[i].rows) && states[i].total == |states[i].rows.Keys|
  {
    RunInv(states, steps, i);
  }

  // Revoked and retired secrets.

  ghost predicate Dead(s: State, h: Hash) {
    h in s.retired || exists id :: id in s.rows && s.rows[id].revoked && s.rows[id].hash == h
  }

  lemma DeadStaysInStep(s: State, step: Step, h: Hash)
    requires Inv(s) && Enabled(s, step) && Dead(s, h)
    ensures Dead(Next(s, step), h)
    ensures h !in s.hashes ==> h !in Next(s, step).hashes
  {
    var next := Next(s, step);
    if h !in s.retired {
      var id :| id in s.rows && s.rows[id].revoked && s.rows[id].hash == h;
      if step.RegenerateCommit? && step.id == id {
        assert h in next.retired;
      } else {
        assert id in next.rows && next.rows[id].revoked && next.rows[id].hash == h;
      }
    }
    if step.Publish? && h !in s.hashes { DeadIsNotPublished(s, h); }
  }

  lemma DeadIsNotPublished(s: State, h: Hash)
    requires Inv(s) && Enabled(s, Publish) && Dead(s, h) && h !in s.hashes
    ensures h !in Published(s).hashes
  {
    forall id | id in s.rows && s.rows[id].hash == h ensures s.rows[id].revoked {}
  }

  /**
   * A secret that was revoked or replaced never authenticates again: once its revocation or
   * regeneration has returned, no later lookup finds its hash. Seeding it again is no exception.
   */
  lemma {:induction false} DeadNeverAuthenticates(states: seq<State>, steps: seq<Step>, i: nat, j: nat, h: Hash)
    requires IsRun(states, steps) && i <= j < |states|
    requires states[i].op.Free? && Dead(states[i], h)
    ensures Dead(states[j], h) && h !in states[j].hashes
    decreases j
  {
    hide Next, Enabled;
    if i == j {
      RunInv(states, steps, i);
      CacheIsDatabase(states, steps, i);
    } else {
      DeadNeverAuthenticates(states, steps, i, j - 1, h);
      RunInv(states, steps, j - 1);
      DeadStaysInStep(states[j - 1], steps[j - 1], h);
    }
  }

  /** Revoking and regenerating a token kill the secret it had, and an operation that returns frees opMu. */
  lemma KillsSecret(s: State, step: Step, id: int)
    requires Inv(s) && Enabled(s, step)
    ensures step == RevokeCommit(id) ==> Dead(Next(s, step), s.rows[id].hash)
    ensures step.RegenerateCommit? && step.id == id ==> Dead(Next(s, step), s.rows[id].hash)
    ensures step.Publish? || step.FlushCommit? || step.FlushPutBack? ==> Next(s, step).op.Free?
  {
    if step == RevokeCommit(id) {
      var next := Next(s, step);
      assert id in next.rows && next.rows[id].revoked && next.rows[id].hash == s.rows[id].hash;
    }
  }

  /** Once a token exists, authentication stays required: HasTokens never turns false. */
  lemma {:induction false} HasTokensStays(states: seq<State>, steps: seq<Step>, i: nat, j: nat)
    requires IsRun(states, steps) && i <= j < |states|
    ensures states[i].total <= states[j].total
    decreases j
  {
    hide Next, Enabled, Inv;
    if i == j {
    } else {
      HasTokensStays(states, steps, i, j - 1);
      RunInv(states, steps, j - 1);
      TotalGrows(states[j - 1], steps[j - 1]);
    }
  }

  lemma TotalGrows(s: State, step: Step)
    requires Inv(s) && Enabled(s, step)
    ensures s.total <= Next(s, step).total
  {
  }

  // Last-used times.

  /**
   * After Regenerate returns, neither the pending map, nor a flush under way, nor the database
   * holds a time recorded under an older secret of the token.
   */
  lemma UsesAreCurrent(states: seq<State>, steps: seq<Step>, i: nat, id: int)
    requires IsRun(states, steps) && i < |states| && id in states[i].rows
    requires !(states[i].op.Regenerating? && states[i].op.id == id)
    ensures var s := states[i];
            && (id in s.used ==> s.used[id].secret == s.rows[id].hash)
            && (id in Taken(s) ==> Taken(s)[id].secret == s.rows[id].hash)
            && (s.rows[id].lastUsed.Some? ==> s.rows[id].lastUsed.value.secret == s.rows[id].hash)
  {
    RunInv(states, steps, i);
  }

  function StoredMs(s: State, id: int): nat {
    if id in s.rows && s.rows[id].lastUsed.Some? then s.rows[id].lastUsed.value.ms else 0
  }

  function UsedMs(used: map<int, Use>, id: int): nat { if id in used then Ms(used[id].at) else 0 }

  /** The newest known use of a token, to the millisecond the database keeps. */
  function Newest(s: State, id: int): nat { Max(StoredMs(s, id), Max(UsedMs(s.used, id), UsedMs(Taken(s), id))) }

  /** The steps of a regeneration of the token, which reset its last use. */
  predicate Resets(s: State, step: Step, id: int) {
    (step.RegenerateCommit? && step.id == id) || (step.Publish? && s.op.Regenerating? && s.op.id == id)
  }

  /**
   * Verify reads the clock before it takes usedMu, so two uses of a token may be recorded in the
   * wrong order. This step records a use that overtook a later one of the token, by at least a
   * millisecond, which no flush has stored or taken yet.
   */
  predicate Overtakes(s: State, step: Step, id: int) {
    && step.VerifyRecord? && step.thread in s.readers && s.readers[step.thread].id == id && id in s.used
    && Ms(s.readers[step.thread].now) < Ms(s.used[id].at)
    && StoredMs(s, id) < Ms(s.used[id].at) && UsedMs(Taken(s), id) < Ms(s.used[id].at)
  }

  /** Exactly such a step makes the newest known use decrease; a failed flush and its put-back never do. */
  lemma NewestInStep(s: State, step: Step, id: int)
    requires Inv(s) && Enabled(s, step) && !Resets(s, step, id)
    ensures Newest(Next(s, step), id) < Newest(s, id) <==> Overtakes(s, step, id)
  {
    hide RowsOk, CacheOk, UsesOk;
    match step
    case FlushCommit => FlushKeepsNewest(s, id);
    case FlushPutBack => PutBackKeepsNewest(s, id);
    case VerifyRecord(thread) => RecordSetsNewest(s, thread, id);
    case _ => OtherStepKeepsNewest(s, step, id);
  }

  lemma FlushKeepsNewest(s: State, id: int)
    requires Inv(s) && Enabled(s, FlushCommit)
    ensures Newest(Next(s, FlushCommit), id) >= Newest(s, id)
  {
    if id in s.op.taken { assert id in Taken(s) && UseOk(s, id, Taken(s)[id].secret); }
    hide RowsOk, CacheOk, UsesOk;
  }

  lemma PutBackKeepsNewest(s: State, id: int)
    requires s.op.PuttingBack?
    ensures Newest(s.(used := Restored(s.used, s.op.taken), op := Free), id) >= Newest(s, id)
  {
  }

  lemma RecordSetsNewest(s: State, thread: int, id: int)
    requires thread in s.readers
    ensures var r := s.readers[thread];
            var next := s.(used := s.used[r.id := Use(r.now, r.secret)], readers := s.readers - {thread});
            Newest(next, id) < Newest(s, id) <==> Overtakes(s, VerifyRecord(thread), id)
  {
  }

  lemma OtherStepKeepsNewest(s: State, step: Step, id: int)
    requires RowsOk(s) && Enabled(s, step) && !Resets(s, step, id)
    requires !step.FlushCommit? && !step.FlushPutBack? && !step.VerifyRecord?
    ensures Newest(Next(s, step), id) >= Newest(s, id)
  {
    hide RowsOk, Known, ReadHashes, WithoutId, IsActiveMap;
  }

  ghost predicate NeverDecreases(states: seq<State>, i: nat, j: nat, id: int)
    requires i <= j < |states|
  {
    forall k, l :: i <= k <= l <= j ==> Newest(states[k], id) <= Newest(states[l], id)
  }

  ghost predicate NoneOvertakes(states: seq<State>, steps: seq<Step>, i: nat, j: nat, id: int)
    requires i <= j < |states| && j <= |steps|
  {
    forall k :: i <= k < j ==> !Overtakes(states[k], steps[k], id)
  }

  lemma {:induction false} NoneOvertakesKeeps(states: seq<State>, steps: seq<Step>, i: nat, j: nat, id: int)
    requires IsRun(states, steps) && i <= j < |states|
    requires forall k :: i <= k < j ==> !Resets(states[k], steps[k], id)
    requires NoneOvertakes(states, steps, i, j, id)
    ensures NeverDecreases(states, i, j, id)
    decreases j
  {
    hide Next, Enabled, Newest, Resets, Overtakes, Inv;
    if i == j {
    } else {
      NoneOvertakesKeeps(states, steps, i, j - 1, id);
      RunInv(states, steps, j - 1);
      assert Goes(states[j - 1], steps[j - 1], states[j]);
      NewestInStep(states[j - 1], steps[j - 1], id);
    }
  }

  /**
   * Over any stretch of a run in which the token is not regenerated, flush failures included, the
   * newest known use never decreases if and only if no record of the token in it overtakes another.
   */
  lemma NewestNeverDecreasesIff(states: seq<State>, steps: seq<Step>, i: nat, j: nat, id: int)
    requires IsRun(states, steps) && i <= j < |states|
    requires forall k :: i <= k < j ==> !Resets(states[k], steps[k], id)
    ensures NeverDecreases(states, i, j, id) <==> NoneOvertakes(states, steps, i, j, id)
  {
    hide Next, Enabled, Newest, Resets, Overtakes, Inv;
    if NoneOvertakes(states, steps, i, j, id) {
      NoneOvertakesKeeps(states, steps, i, j, id);
    } else {
      var k :| i <= k < j && Overtakes(states[k], steps[k], id);
      RunInv(states, steps, k);
      assert Goes(states[k], steps[k], states[k + 1]);
      NewestInStep(states[k], steps[k], id);
      assert Newest(states[k + 1], id) < Newest(states[k], id);
    }
  }

  /** Step l looked up the secret that the thread's reading is of, and its result stood until step i. */
  ghost predicate LookedUpAt(states: seq<State>, steps: seq<Step>, l: nat, i: nat, thread: int)
    requires l < i < |states| && i <= |steps|
  {
    && thread in states[i].readers && steps[l] == VerifyLookup(thread, states[i].readers[thread].secret)
    && steps[l].secret in states[l].hashes
    && states[i].readers[thread] == Reading(states[l].hashes[steps[l].secret], steps[l].secret, states[l].clock)
    && forall k :: l < k < i ==> steps[k] != VerifyRecord(thread)
  }

  /** A use about to be recorded is of the token its secret was found to belong to, at the time of that lookup. */
  lemma {:induction false} ReadingIsLookup(states: seq<State>, steps: seq<Step>, i: nat, thread: int)
    requires IsRun(states, steps) && i < |states| && thread in states[i].readers
    ensures exists l :: 0 <= l < i && LookedUpAt(states, steps, l, i, thread)
  {
    if i == 0 {
      assert false;
    } else {
      assert Goes(states[i - 1], steps[i - 1], states[i]);
      ReadersInStep(states[i - 1], steps[i - 1], thread);
      hide Next, Enabled, Init, Goes;
      if steps[i - 1].VerifyLookup? && steps[i - 1].thread == thread {
        assert LookedUpAt(states, steps, i - 1, i, thread);
      } else {
        ReadingIsLookup(states, steps, i - 1, thread);
        var l :| 0 <= l < i - 1 && LookedUpAt(states, steps, l, i - 1, thread);
        assert LookedUpAt(states, steps, l, i, thread);
      }
    }
  }

  lemma ReadersInStep(s: State, step: Step, thread: int)
    requires Unique(s.rows) && Enabled(s, step) && thread in Next(s, step).readers
    ensures if step.VerifyLookup? && step.thread == thread then
              step.secret in s.hashes
              && Next(s, step).readers[thread] == Reading(s.hashes[step.secret], step.secret, s.clock)
            else thread in s.readers && Next(s, step).readers[thread] == s.readers[thread]
    ensures step != VerifyRecord(thread)
  {
    hide Known, Touched, Restored, ReadHashes, WithoutId;
  }

  /**
   * No use is lost: over any stretch of a run in which the token is not regenerated and no record of
   * it overtakes another, the newest known use is at least every use recorded, whether it is still
   * pending, taken by a flush, put back after a failed one, or stored.
   */
  lemma UseIsKept(states: seq<State>, steps: seq<Step>, i: nat, j: nat)
    requires IsRun(states, steps) && i < j < |states| && steps[i].VerifyRecord? && steps[i].thread in states[i].readers
    requires var id := states[i].readers[steps[i].thread].id;
             && (forall k :: i < k < j ==> !Resets(states[k], steps[k], id))
             && NoneOvertakes(states, steps, i + 1, j, id)
    ensures var use := states[i].readers[steps[i].thread]; Newest(states[j], use.id) >= Ms(use.now)
  {
    var use := states[i].readers[steps[i].thread];
    assert Goes(states[i], steps[i], states[i + 1]);
    RecordIsKnown(states[i], steps[i].thread);
    hide Next, Enabled, Newest, Resets, Overtakes;
    NoneOvertakesKeeps(states, steps, i + 1, j, use.id);
    assert Newest(states[i + 1], use.id) <= Newest(states[j], use.id);
  }

  lemma RecordIsKnown(s: State, thread: int)
    requires Unique(s.rows) && Enabled(s, VerifyRecord(thread))
    ensures var r := s.readers[thread]; Newest(Next(s, VerifyRecord(thread)), r.id) >= Ms(r.now)
  {
  }

  /** A flush takes all pending uses, and once it is committed each is stored, to the millisecond. */
  lemma FlushStores(s: State, id: int)
    ensures Enabled(s, FlushTake) && Unique(s.rows) ==>
              Next(s, FlushTake).used == map[] && Taken(Next(s, FlushTake)) == s.used
    ensures Enabled(s, FlushCommit) && Unique(s.rows) && id in s.rows && id in Taken(s) ==>
              StoredMs(Next(s, FlushCommit), id) >= Taken(s)[id].at / 1000000
  {
  }

  /**
   * Two Verify calls a millisecond apart, recorded in the opposite order: the newest known use goes
   * from 2 ms to 1 ms.
   */
  lemma RecordsMayOvertake() returns (states: seq<State>, steps: seq<Step>)
    ensures IsRun(states, steps) && |states| > 5 && (forall k :: 0 <= k < |steps| ==> !Resets(states[k], steps[k], 7))
    ensures Newest(states[4], 7) == 2 && Newest(states[5], 7) == 1
  {
    hide Init, IsRun, Goes, Overtaking, Newest;
    var s0 := Overtaking(None, None, None, 1000000);
    var s1 := Overtaking(None, Some(1000000), None, 1000000);
    var s2 := Overtaking(None, Some(1000000), None, 2000000);
    var s3 := Overtaking(None, Some(1000000), Some(2000000), 2000000);
    var s4 := Overtaking(Some(2000000), Some(1000000), None, 2000000);
    var s5 := Overtaking(Some(1000000), None, None, 2000000);
    OvertakingStarts();
    OvertakingLookups();
    OvertakingRecords();
    states, steps := RunOfFive(s0, s1, s2, s3, s4, s5,
                               VerifyLookup(0, 1), Tick(2000000), VerifyLookup(1, 1), VerifyRecord(1), VerifyRecord(0));
    OvertakingNewest();
  }

  lemma RunOfFive(s0: State, s1: State, s2: State, s3: State, s4: State, s5: State,
                  t0: Step, t1: Step, t2: Step, t3: Step, t4: Step)
    returns (states: seq<State>, steps: seq<Step>)
    requires Init(s0) && Goes(s0, t0, s1) && Goes(s1, t1, s2)
    requires Goes(s2, t2, s3) && Goes(s3, t3, s4) && Goes(s4, t4, s5)
    ensures states == [s0, s1, s2, s3, s4, s5] && steps == [t0, t1, t2, t3, t4] && IsRun(states, steps)
  {
    hide Init, Next, Enabled, Unique;
    states, steps := [s0, s1, s2, s3, s4, s5], [t0, t1, t2, t3, t4];
  }

  /**
   * A store with one token, 7, whose hash is 1, its pending use if any, and what threads 0 and 1
   * still have to record.
   */
  function Overtaking(used: Option<nat>, first: Option<nat>, second: Option<nat>, clock: nat): State {
    State(map[7 := Token(1, false, None)], {}, map[1 := 7], 1,
          if used.Some? then map[7 := Use(used.value, 1)] else map[], Free,
          (if first.Some? then map[0 := Reading(7, 1, first.value)] else map[])
          + (if second.Some? then map[1 := Reading(7, 1, second.value)] else map[]), clock)
  }

  lemma OvertakingStarts()
    ensures var s := Overtaking(None, None, None, 1000000);
            Init(s) && Goes(s, VerifyLookup(0, 1), Overtaking(None, Some(1000000), None, 1000000))
  {
    assert Overtaking(None, None, None, 1000000).rows.Keys == {7};
    assert Overtaking(None, Some(1000000), None, 1000000).readers == map[0 := Reading(7, 1, 1000000)];
  }

  lemma OvertakingLookups()
    ensures var s1, s2 := Overtaking(None, Some(1000000), None, 1000000),
                          Overtaking(None, Some(1000000), None, 2000000);
            && Goes(s1, Tick(2000000), s2)
            && Goes(s2, VerifyLookup(1, 1), Overtaking(None, Some(1000000), Some(2000000), 2000000))
  {
    assert Overtaking(None, Some(1000000), None, 2000000).readers[1 := Reading(7, 1, 2000000)]
           == Overtaking(None, Some(1000000), Some(2000000), 2000000).readers;
  }

  lemma OvertakingRecords()
    ensures var s3, s4 := Overtaking(None, Some(1000000), Some(2000000), 2000000),
                          Overtaking(Some(2000000), Some(1000000), None, 2000000);
            && Goes(s3, VerifyRecord(1), s4)
            && Goes(s4, VerifyRecord(0), Overtaking(Some(1000000), None, None, 2000000))
  {
    var s3, s4, s5 := Overtaking(None, Some(1000000), Some(2000000), 2000000),
                      Overtaking(Some(2000000), Some(1000000), None, 2000000),
                      Overtaking(Some(1000000), None, None, 2000000);
    assert s3.readers - {1} == s4.readers && s3.used[7 := Use(2000000, 1)] == s4.used;
    assert s4.readers - {0} == s5.readers && s4.used[7 := Use(1000000, 1)] == s5.used;
  }

  lemma OvertakingNewest()
    ensures Newest(Overtaking(Some(2000000), Some(1000000), None, 2000000), 7) == 2
    ensures Newest(Overtaking(Some(1000000), None, None, 2000000), 7) == 1
  {
  }
}

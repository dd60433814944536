/**
  The token store: one token per source, sealed, and the dashboard's sessions, both held in
  memory and in one file that every change replaces.
 */
module TokenStore {
  import opened Wrappers

  datatype TokenRecord = TokenRecord(sealedToken: string, issuedAt: string)

  /** Sessions by id, with the second they expire. */
  datatype Memory = Memory(tokens: map<string, TokenRecord>, sessions: map<string, nat>)

  const EMPTY := Memory(map[], map[])

  /** Sealing under the store's key: a nonce makes every sealing different, and opening inverts it. */
  datatype Cipher = Cipher(seal: (string, nat) -> string, open: string -> Option<string>)

  ghost predicate Inverts(c: Cipher) { forall token, nonce :: c.open(c.seal(token, nonce)) == Some(token) }

  datatype Op =
    | Issue(source: string, record: TokenRecord)
    | Revoke(source: string)
    | Verify(source: string, presented: string)
    | StartSession(id: string, expires: nat, now: nat)
    | SessionIsLive(id: string, now: nat)
    | EndSession(id: string)

  /** The sessions that have not expired. */
  function Unexpired(sessions: map<string, nat>, now: nat): map<string, nat> {
    map id | id in sessions && sessions[id] > now :: sessions[id]
  }

  function Applied(m: Memory, op: Op): Memory {
    match op
    case Issue(source, record) => m.(tokens := m.tokens[source := record])
    case Revoke(source) => m.(tokens := m.tokens - {source})
    case StartSession(id, expires, now) => m.(sessions := Unexpired(m.sessions, now)[id := expires])
    case EndSession(id) => m.(sessions := m.sessions - {id})
    case Verify(_, _) => m
    case SessionIsLive(_, _) => m
  }

  /** Whether an operation changes anything, and so has to be written. */
  predicate Changes(m: Memory, op: Op) {
    match op
    case Issue(_, _) => true
    case Revoke(source) => source in m.tokens
    case StartSession(_, _, _) => true
    case EndSession(id) => id in m.sessions
    case Verify(_, _) => false
    case SessionIsLive(_, _) => false
  }

  function Verifies(m: Memory, c: Cipher, source: string, presented: string): bool {
    source in m.tokens && c.open(m.tokens[source].sealedToken) == Some(presented)
  }

  function IsLive(m: Memory, id: string, now: nat): bool { id in m.sessions && m.sessions[id] > now }

  /** What a sequence of operations makes of an empty store. */
  function Folded(log: seq<Op>): Memory {
    if log == [] then EMPTY else Applied(Folded(log[..|log| - 1]), log[|log| - 1])
  }

  // ----- what the answers mean -------------------------------------------------------------

  /** The token a source was last issued, unless it was revoked since. */
  function LastToken(log: seq<Op>, c: Cipher, source: string): Option<string> {
    if log == [] then None
    else match log[|log| - 1]
      case Issue(s, record) =>
        if s == source then c.open(record.sealedToken) else LastToken(log[..|log| - 1], c, source)
      case Revoke(s) => if s == source then None else LastToken(log[..|log| - 1], c, source)
      case _ => LastToken(log[..|log| - 1], c, source)
  }

  /** A token verifies exactly if it is the one last issued to that very source and not revoked since. */
  lemma {:induction false} VerifiesExactlyLast(log: seq<Op>, c: Cipher, source: string, presented: string)
    ensures Verifies(Folded(log), c, source, presented) <==> LastToken(log, c, source) == Some(presented)
  {
    if log != [] { VerifiesExactlyLast(log[..|log| - 1], c, source, presented); }
  }

  /** So the token just issued verifies, no other does, and no other source's answer changes. */
  lemma IssueDecides(log: seq<Op>, c: Cipher, source: string, token: string, nonce: nat, at: string,
                     presented: string, other: string)
    requires Inverts(c)
    ensures var after := log + [Issue(source, TokenRecord(c.seal(token, nonce), at))];
      && (Verifies(Folded(after), c, source, presented) <==> presented == token)
      && (other != source ==>
            Verifies(Folded(after), c, other, presented) == Verifies(Folded(log), c, other, presented))
  {
  }

  /** When the last session started under an id expires, unless it was ended or pruned since. */
  function LastSession(log: seq<Op>, id: string): Option<nat> {
    if log == [] then None
    else
      var before := LastSession(log[..|log| - 1], id);
      match log[|log| - 1]
      case StartSession(s, expires, now) =>
        if s == id then Some(expires)
        else if before.Some? && before.value <= now then None
        else before
      case EndSession(s) => if s == id then None else before
      case _ => before
  }

  lemma {:induction false} LiveExactlyLast(log: seq<Op>, id: string, now: nat)
    ensures IsLive(Folded(log), id, now) <==> LastSession(log, id).Some? && LastSession(log, id).value > now
    ensures id in Folded(log).sessions <==> LastSession(log, id).Some?
    ensures id in Folded(log).sessions ==> Folded(log).sessions[id] == LastSession(log, id).value
  {
    if log != [] { LiveExactlyLast(log[..|log| - 1], id, now); }
  }

  /** When the last session started under an id expires, unless it was ended. */
  function Promised(log: seq<Op>, id: string): Option<nat> {
    if log == [] then None
    else match log[|log| - 1]
      case StartSession(s, expires, _) => if s == id then Some(expires) else Promised(log[..|log| - 1], id)
      case EndSession(s) => if s == id then None else Promised(log[..|log| - 1], id)
      case _ => Promised(log[..|log| - 1], id)
  }

  predicate ClockBehind(log: seq<Op>, now: nat) { forall op :: op in log && op.StartSession? ==> op.now <= now }

  /**
    Under a clock that does not run backwards, a session is live exactly if it was started,
    has not been ended and has not expired: pruning at logins is invisible.
   */
  lemma {:induction false} LiveExactlyWhenPromised(log: seq<Op>, id: string, now: nat)
    requires ClockBehind(log, now)
    ensures IsLive(Folded(log), id, now) <==> Promised(log, id).Some? && Promised(log, id).value > now
  {
    LiveExactlyLast(log, id, now);
    if log != [] {
      var n := |log| - 1;
      assert log[n] in log;
      assert forall op :: op in log[..n] ==> op in log;
      LiveExactlyWhenPromised(log[..n], id, now);
      LiveExactlyLast(log[..n], id, now);
    }
  }

  lemma {:induction false} EndedIsNone(log: seq<Op>, id: string, later: seq<Op>)
    requires forall op :: op in later ==> !(op.StartSession? && op.id == id)
    ensures LastSession(log + [EndSession(id)] + later, id).None?
  {
    var all := log + [EndSession(id)] + later;
    if later == [] {
      assert all == log + [EndSession(id)];
    } else {
      assert all[..|all| - 1] == log + [EndSession(id)] + later[..|later| - 1];
      assert later[|later| - 1] in later;
      EndedIsNone(log, id, later[..|later| - 1]);
    }
  }

  /** A session that is ended is dead at once and stays so until a login uses its id again. */
  lemma EndedStaysDead(log: seq<Op>, id: string, later: seq<Op>, now: nat)
    requires forall op :: op in later ==> !(op.StartSession? && op.id == id)
    ensures !IsLive(Folded(log + [EndSession(id)] + later), id, now)
  {
    EndedIsNone(log, id, later);
    LiveExactlyLast(log + [EndSession(id)] + later, id, now);
  }

  // ----- what is written ---------------------------------------------------------------------

  /** Whatever an operation changes, it writes; revocations and logouts write only what they change. */
  lemma WrittenExactlyWhen(m: Memory, op: Op)
    ensures Changes(m, op) <==> op.Issue? || op.StartSession? || Applied(m, op) != m
    ensures op.Revoke? ==> Applied(m, op).tokens == (map s | s in m.tokens && s != op.source :: m.tokens[s])
    ensures op.EndSession? ==> Applied(m, op).sessions == (map s | s in m.sessions && s != op.id :: m.sessions[s])
    ensures !(op.Issue? || op.Revoke?) ==> Applied(m, op).tokens == m.tokens
    ensures !(op.StartSession? || op.EndSession?) ==> Applied(m, op).sessions == m.sessions
  {
    assert m.(tokens := m.tokens) == m && m.(sessions := m.sessions) == m;
    match op {
      case Revoke(source) =>
        if source !in m.tokens { assert m.tokens - {source} == m.tokens; }
      case EndSession(id) =>
        if id !in m.sessions { assert m.sessions - {id} == m.sessions; }
      case _ =>
    }
  }

  /** A revocation or a logout: the memory, the file and the answer, which says whether there was anything. */
  function Undone(m: Memory, file: Memory, op: Op, replaced: bool): (Memory, Memory, Result<bool, ()>) {
    var had := Changes(m, op);
    (Applied(m, op),
     if had && replaced then Applied(m, op) else file,
     if had && !replaced then Err(()) else Ok(had))
  }

  /**
    An answered revocation leaves no token of the source in memory, and none in the file exactly
    if memory had one or the file had none.
   */
  lemma RevokedExactlyWhen(m: Memory, file: Memory, source: string, replaced: bool)
    ensures var (memory, written, answer) := Undone(m, file, Revoke(source), replaced);
      && source !in memory.tokens
      && (answer.Ok? ==> (source !in written.tokens <==> source in m.tokens || source !in file.tokens))
      && (forall s :: s != source && s in m.tokens ==> s in memory.tokens && memory.tokens[s] == m.tokens[s])
      && memory.sessions == m.sessions
  {
  }

  /**
    So a revocation whose write failed and that is asked for again is answered, while the file
    keeps the token: it verifies once more after a restart.
   */
  lemma RetriedRevokeComesBack(m: Memory, c: Cipher, source: string, presented: string)
    requires Verifies(m, c, source, presented)
    ensures var (memory, file, answer) := Undone(m, m, Revoke(source), false);
      var (memory', file', answer') := Undone(memory, file, Revoke(source), true);
      && answer.Err? && answer' == Ok(false)
      && !Verifies(memory', c, source, presented) && Verifies(file', c, source, presented)
  {
    RevokedExactlyWhen(m, m, source, false);
    RevokedExactlyWhen(Applied(m, Revoke(source)), m, source, true);
  }

  /** A logout the same: the session is gone from memory, and from the file exactly under that condition. */
  lemma EndedExactlyWhen(m: Memory, file: Memory, id: string, replaced: bool)
    ensures var (memory, written, answer) := Undone(m, file, EndSession(id), replaced);
      && id !in memory.sessions
      && (answer.Ok? ==> (id !in written.sessions <==> id in m.sessions || id !in file.sessions))
      && (forall s :: s != id && s in m.sessions ==> s in memory.sessions && memory.sessions[s] == m.sessions[s])
      && memory.tokens == m.tokens
  {
  }

  // ----- the object ---------------------------------------------------------------------------

  /** Each method runs alone here; how they interleave is the business of `StoreLocks`. */
  class TokenStore {
    const cipher: Cipher
    var tokens: map<string, TokenRecord>
    var sessions: map<string, nat>
    var file: Memory

    function Held(): Memory
      reads this
    {
      Memory(tokens, sessions)
    }

    /** A store that starts from what its predecessor wrote. */
    constructor (cipher: Cipher, file: Memory)
      ensures this.cipher == cipher && this.file == file && Held() == file
    {
      this.cipher := cipher;
      this.file := file;
      tokens, sessions := file.tokens, file.sessions;
    }

    /** Replaces the file, or fails and leaves it alone. */
    method Persist(replaced: bool) returns (ok: bool)
      modifies this`file
      ensures ok == replaced && file == if replaced then Held() else old(file)
    {
      if replaced { file := Memory(tokens, sessions); }
      ok := replaced;
    }

    method IssueToken(source: string, token: string, nonce: nat, now: string, replaced: bool) returns (ok: bool)
      modifies this
      ensures Held() == Applied(old(Held()), Issue(source, TokenRecord(cipher.seal(token, nonce), now)))
      ensures ok == replaced && file == if ok then Held() else old(file)
    {
      tokens := tokens[source := TokenRecord(cipher.seal(token, nonce), now)];
      ok := Persist(replaced);
    }

    method RevokeToken(source: string, replaced: bool) returns (existed: Result<bool, ()>)
      modifies this
      ensures Held() == Applied(old(Held()), Revoke(source))
      ensures var had := Changes(old(Held()), Revoke(source));
        && existed == (if had && !replaced then Err(()) else Ok(had))
        && file == (if had && replaced then Held() else old(file))
      ensures (Held(), file, existed) == Undone(old(Held()), old(file), Revoke(source), replaced)
      ensures source !in tokens
      ensures existed.Ok? ==> (source !in file.tokens <==> source in old(tokens) || source !in old(file).tokens)
    {
      var had := source in tokens;
      tokens := tokens - {source};
      if had {
        var ok := Persist(replaced);
        if !ok { return Err(()); }
      }
      existed := Ok(had);
    }

    method VerifyToken(source: string, presented: string) returns (ok: bool)
      ensures ok == Verifies(Held(), cipher, source, presented)
    {
      if source !in tokens { return false; }
      match cipher.open(tokens[source].sealedToken) {
        case Some(actual) => ok := actual == presented;
        case None => ok := false;
      }
    }

    method BeginSession(id: string, expires: nat, now: nat, replaced: bool) returns (ok: bool)
      modifies this
      ensures Held() == Applied(old(Held()), StartSession(id, expires, now))
      ensures ok == replaced && file == if ok then Held() else old(file)
    {
      sessions := map s | s in sessions && sessions[s] > now :: sessions[s];
      sessions := sessions[id := expires];
      ok := Persist(replaced);
    }

    method SessionLive(presented: string, now: nat) returns (live: bool)
      ensures live == IsLive(Held(), presented, now)
    {
      live := exists id <- sessions :: sessions[id] > now && id == presented;
    }

    method FinishSession(id: string, replaced: bool) returns (ok: bool)
      modifies this
      ensures Held() == Applied(old(Held()), EndSession(id))
      ensures var had := Changes(old(Held()), EndSession(id));
        && ok == (had ==> replaced)
        && file == (if had && replaced then Held() else old(file))
      ensures var (memory, written, answer) := Undone(old(Held()), old(file), EndSession(id), replaced);
        Held() == memory && file == written && ok == answer.Ok?
      ensures id !in sessions
      ensures ok ==> (id !in file.sessions <==> id in old(sessions) || id !in old(file).sessions)
    {
      if id !in sessions {
        assert sessions - {id} == sessions;
        return true;
      }
      sessions := sessions - {id};
      ok := Persist(replaced);
    }
  }
}

/**
 The account-control reducer as a function on states, and what holds over every run of it: the shape of the log,
 the key lineage, replay, and that one head reference pins down the whole history.
 */
module ControlHistory {
  import opened Bytes
  import opened ControlRecords
  import opened ControlLedger

  datatype Head = Head(accountID: UUID, sequence: nat, controlGeneration: nat, controlKeyID: UUID,
    referenceDigest: string)

  datatype State = State(pinned: Anchor, current: Anchor, head: Head, books: Books, records: seq<Command>)

  function Begin(c: Crypto, pinned: Anchor): Option<State> {
    var reference := AnchorDigest(c, pinned);
    if !VerifyPossession(c, pinned) || pinned.unsigned.controlGeneration != 1 || reference.None? then None
    else Some(State(pinned, pinned,
                    Head(pinned.unsigned.accountID, 0, pinned.unsigned.controlGeneration, pinned.unsigned.controlKeyID,
                      reference.value),
                    NO_BOOKS, []))
  }

  /** The candidate is, byte for byte, the record already at the tail. */
  predicate Repeats(c: Crypto, s: State, r: Command) {
    && s.records != []
    && var last := CanonicalCommand(c, s.records[|s.records| - 1]);
    last.Some? && last.value != [] && CanonicalCommand(c, r) == last
  }

  /** The control keys that were ever current, in order. */
  function KeyIDs(c: Crypto, pinned: Anchor, records: seq<Command>): (ids: seq<UUID>)
    ensures ids != []
  {
    if records == [] then [pinned.unsigned.controlKeyID]
    else KeyIDs(c, pinned, records[..|records| - 1]) + NewKeyIDs(c, records[|records| - 1])
  }

  function NewKeyIDs(c: Crypto, r: Command): (ids: seq<UUID>)
    ensures |ids| <= 1
  {
    var p := DecodedPayload(c, r);
    if p.Some? && p.value.effect.controlAnchor.Some? then [p.value.effect.controlAnchor.value.unsigned.controlKeyID]
    else []
  }

  /** The command is signed by the current key, directly extends the head and uses a fresh command ID. */
  function Admit(c: Crypto, s: State, r: Command): (a: Option<Payload>)
    ensures a.Some? ==> a == DecodedPayload(c, r)
  {
    var p := Verify(c, r, s.current);
    if p.Some? && p.value.accountID == s.head.accountID && s.head.sequence != MAX_UINT64
       && p.value.sequence == s.head.sequence + 1 && p.value.predecessorReferenceDigest == s.head.referenceDigest
       && (forall i :: 0 <= i < |s.records| ==>
             var accepted := DecodedPayload(c, s.records[i]);
             accepted.Some? && accepted.value.commandID != p.value.commandID)
    then p else None
  }

  function NextAnchor(s: State, p: Payload): Anchor {
    if p.effect.kind.RotateControlKey? && p.effect.controlAnchor.Some? then p.effect.controlAnchor.value else s.current
  }

  function Commit(c: Crypto, s: State, r: Command, p: Payload): Option<State>
    requires EffectValid(c, p.effect)
  {
    var books, reference := Record(c, s.books, p.effect), CommandDigest(c, r);
    var next := NextAnchor(s, p);
    if books.None? || reference.None?
       || (p.effect.kind.RotateControlKey? && next.unsigned.controlKeyID in KeyIDs(c, s.pinned, s.records)) then None
    else Some(State(s.pinned, next,
                    Head(p.accountID, p.sequence, next.unsigned.controlGeneration, next.unsigned.controlKeyID,
                      reference.value),
                    books.value, s.records + [r]))
  }

  function Step(c: Crypto, s: State, r: Command): Option<State> {
    if !VerifyPossession(c, s.current) then None
    else if Repeats(c, s, r) then Some(s)
    else var p := Admit(c, s, r); if p.None? then None else Commit(c, s, r, p.value)
  }

  /** Any sequence of attempts; refused ones leave the state alone. */
  function Run(c: Crypto, s: State, attempts: seq<Command>): State
    decreases |attempts|
  {
    if attempts == [] then s
    else
      var t := Run(c, s, attempts[..|attempts| - 1]);
      var u := Step(c, t, attempts[|attempts| - 1]);
      if u.Some? then u.value else t
  }

  /** Applying a log from the start, all of it or nothing. */
  function Replay(c: Crypto, pinned: Anchor, records: seq<Command>): Option<State>
    decreases |records|
  {
    if records == [] then Begin(c, pinned)
    else
      var s := Replay(c, pinned, records[..|records| - 1]);
      if s.Some? then Step(c, s.value, records[|records| - 1]) else None
  }

  // ---- what holds in every reachable state ----

  /** The reference the record at `i` must extend: the pinned anchor's, or that of the record before. */
  function ReferenceBefore(c: Crypto, pinned: Anchor, records: seq<Command>, i: nat): Option<string>
    requires i <= |records|
  {
    if i == 0 then AnchorDigest(c, pinned) else CommandDigest(c, records[i - 1])
  }

  ghost predicate RecordSound(c: Crypto, pinned: Anchor, records: seq<Command>, i: nat)
    requires i < |records|
  {
    var p := DecodedPayload(c, records[i]);
    && p.Some? && p.value.sequence == i + 1 && p.value.accountID == pinned.unsigned.accountID
    && ReferenceBefore(c, pinned, records, i) == Some(p.value.predecessorReferenceDigest)
  }

  ghost predicate CommandsDistinct(c: Crypto, records: seq<Command>) {
    forall i, j :: 0 <= i < j < |records| ==> CommandID(c, records[i]) != CommandID(c, records[j])
  }

  function CommandID(c: Crypto, r: Command): UUID {
    var p := DecodedPayload(c, r);
    if p.Some? then p.value.commandID else NIL
  }

  /** A chained log of decodable commands with distinct IDs. */
  ghost predicate LogSound(c: Crypto, pinned: Anchor, records: seq<Command>) {
    && (forall i :: 0 <= i < |records| ==> RecordSound(c, pinned, records, i))
    && CommandsDistinct(c, records)
  }

  ghost predicate Distinct(ids: seq<UUID>) {
    forall i, j :: 0 <= i < j < |ids| ==> ids[i] != ids[j]
  }

  /** Keys never return, the current one came last, and the generation counts them. */
  ghost predicate KeysSound(c: Crypto, s: State) {
    var ids := KeyIDs(c, s.pinned, s.records);
    && Distinct(ids) && s.current.unsigned.controlKeyID == ids[|ids| - 1]
    && s.current.unsigned.controlGeneration == |ids|
    && VerifyPossession(c, s.current) && s.current.unsigned.accountID == s.pinned.unsigned.accountID
  }

  ghost predicate HeadSound(c: Crypto, s: State) {
    && s.head.sequence == |s.records| && s.head.accountID == s.pinned.unsigned.accountID
    && s.head.controlGeneration == s.current.unsigned.controlGeneration
    && s.head.controlKeyID == s.current.unsigned.controlKeyID
    && ReferenceBefore(c, s.pinned, s.records, |s.records|) == Some(s.head.referenceDigest)
  }

  ghost predicate ChainsEnd(b: Books, bound: nat) {
    exists rank: map<string, nat> :: Ranked(b.grants, rank, bound)
  }

  ghost predicate Inv(c: Crypto, s: State) {
    && HeadSound(c, s) && KeysSound(c, s) && LogSound(c, s.pinned, s.records) && Sound(c, s.books)
    && ChainsEnd(s.books, |s.records|) && Replay(c, s.pinned, s.records) == Some(s)
  }

  lemma BeginInv(c: Crypto, pinned: Anchor)
    requires Begin(c, pinned).Some?
    ensures Inv(c, Begin(c, pinned).value)
  {
    hide VerifyPossession;
    assert Ranked(NO_BOOKS.grants, map[], 0);
  }

  lemma LogGrows(c: Crypto, s: State, r: Command)
    requires LogSound(c, s.pinned, s.records) && HeadSound(c, s) && Admit(c, s, r).Some?
    ensures LogSound(c, s.pinned, s.records + [r])
  {
    hide DecodedPayload, CommandDigest, AnchorDigest, Verify;
    var records := s.records + [r];
    forall i | 0 <= i < |records| ensures RecordSound(c, s.pinned, records, i) {
      if i < |s.records| {
        assert RecordSound(c, s.pinned, s.records, i);
        assert i > 0 ==> records[i - 1] == s.records[i - 1];
      }
    }
    forall i, j | 0 <= i < j < |records| ensures CommandID(c, records[i]) != CommandID(c, records[j]) {
      if j == |s.records| {
        assert DecodedPayload(c, s.records[i]).Some?;
      } else {
        assert CommandID(c, s.records[i]) != CommandID(c, s.records[j]);
      }
    }
  }

  lemma OnlyRotationsCarryKeys(c: Crypto, e: Effect)
    requires EffectValid(c, e)
    ensures e.kind.RotateControlKey? <==> e.controlAnchor.Some?
  {
    hide GrantValid, ConsentValid, VerifyPossession;
  }

  lemma KeyIDsStep(c: Crypto, pinned: Anchor, records: seq<Command>, r: Command)
    ensures KeyIDs(c, pinned, records + [r]) == KeyIDs(c, pinned, records) + NewKeyIDs(c, r)
  {
    hide NewKeyIDs;
    assert (records + [r])[..|records|] == records;
  }

  lemma KeysGrow(c: Crypto, s: State, r: Command, p: Payload)
    requires KeysSound(c, s) && Admit(c, s, r) == Some(p) && Commit(c, s, r, p).Some?
    ensures KeysSound(c, Commit(c, s, r, p).value)
  {
    hide Record, CommandDigest, VerifyPossession, EffectValid, DecodedPayload, KeyIDs;
    OnlyRotationsCarryKeys(c, p.effect);
    KeyIDsStep(c, s.pinned, s.records, r);
  }

  lemma CommitInv(c: Crypto, s: State, r: Command, p: Payload)
    requires Inv(c, s) && !Repeats(c, s, r) && Admit(c, s, r) == Some(p) && Commit(c, s, r, p).Some?
    ensures Inv(c, Commit(c, s, r, p).value)
  {
    var t := Commit(c, s, r, p).value;
    LogGrows(c, s, r);
    KeysGrow(c, s, r, p);
    ControlLedger.RecordSound(c, s.books, p.effect);
    var rank :| Ranked(s.books.grants, rank, |s.records|);
    var next := RecordRanked(c, s.books, p.effect, rank, |s.records|);
    hide Ranked, Sound, LogSound, Record, Admit, CommandDigest, Repeats, VerifyPossession, EffectValid;
    assert t.records[..|t.records| - 1] == s.records;
    assert Step(c, s, r) == Some(t);
    assert Ranked(t.books.grants, next, |t.records|);
  }

  lemma StepInv(c: Crypto, s: State, r: Command)
    requires Inv(c, s) && Step(c, s, r).Some?
    ensures Inv(c, Step(c, s, r).value) && Moves(s.books, Step(c, s, r).value.books)
    ensures s.records <= Step(c, s, r).value.records
  {
    hide Inv, Admit, Commit, Repeats, VerifyPossession, Moves, Sound;
    if Repeats(c, s, r) {
      MovesNowhere(s.books);
    } else {
      var p := Admit(c, s, r).value;
      CommitInv(c, s, r, p);
      CommitMoves(c, s, r, p);
    }
  }

  lemma CommitMoves(c: Crypto, s: State, r: Command, p: Payload)
    requires Inv(c, s) && EffectValid(c, p.effect) && Commit(c, s, r, p).Some?
    ensures Moves(s.books, Commit(c, s, r, p).value.books)
    ensures s.records <= Commit(c, s, r, p).value.records
  {
    hide Record, Sound, Moves, EffectValid, Replay, LogSound, KeysSound;
    RecordMoves(c, s.books, p.effect);
  }

  /** Every state any run reaches is sound; on the way nothing recorded is lost or moves backward. */
  lemma {:induction false} RunInv(c: Crypto, s: State, attempts: seq<Command>)
    requires Inv(c, s)
    ensures Inv(c, Run(c, s, attempts)) && Moves(s.books, Run(c, s, attempts).books)
    ensures s.records <= Run(c, s, attempts).records
    decreases |attempts|
  {
    hide Inv, Step, Moves;
    if attempts == [] {
      MovesNowhere(s.books);
    } else {
      RunInv(c, s, attempts[..|attempts| - 1]);
      var t := Run(c, s, attempts[..|attempts| - 1]);
      if Step(c, t, attempts[|attempts| - 1]).Some? {
        StepInv(c, t, attempts[|attempts| - 1]);
        MovesOn(s.books, t.books, Run(c, s, attempts).books);
      }
    }
  }

  function Rotations(c: Crypto, records: seq<Command>): nat {
    if records == [] then 0
    else
      var p := DecodedPayload(c, records[|records| - 1]);
      Rotations(c, records[..|records| - 1]) + if p.Some? && p.value.effect.kind.RotateControlKey? then 1 else 0
  }

  lemma {:induction false} KeysCountRotations(c: Crypto, pinned: Anchor, records: seq<Command>)
    ensures |KeyIDs(c, pinned, records)| == 1 + Rotations(c, records)
    decreases |records|
  {
    if records != [] {
      hide GrantValid, ConsentValid, VerifyPossession, CredentialValid;
      KeysCountRotations(c, pinned, records[..|records| - 1]);
    }
  }

  ghost predicate Reachable(c: Crypto, pinned: Anchor, s: State) {
    Begin(c, pinned).Some? && exists attempts :: s == Run(c, Begin(c, pinned).value, attempts)
  }

  /** The account log after any run: it is as long as the head says, its command IDs and the control keys that were
      ever current are distinct, the generation counts the rotations, and replaying it from the pinned anchor gives
      the state back. */
  lemma ReachableLog(c: Crypto, pinned: Anchor, s: State)
    requires Reachable(c, pinned, s)
    ensures Inv(c, s) && s.pinned == pinned
    ensures |s.records| == s.head.sequence && CommandsDistinct(c, s.records) && Distinct(KeyIDs(c, pinned, s.records))
    ensures s.head.controlGeneration == 1 + Rotations(c, s.records)
    ensures Replay(c, pinned, s.records) == Some(s)
  {
    var attempts :| s == Run(c, Begin(c, pinned).value, attempts);
    BeginInv(c, pinned);
    RunInv(c, Begin(c, pinned).value, attempts);
    RunKeepsAnchor(c, Begin(c, pinned).value, attempts);
    KeysCountRotations(c, pinned, s.records);
    hide Run, Replay, Sound, VerifyPossession;
  }

  /** A log that replays is accepted record by record, so applying it to a fresh state ends in the replayed state. */
  lemma {:induction false} ReplayIsRun(c: Crypto, pinned: Anchor, records: seq<Command>)
    requires Replay(c, pinned, records).Some?
    ensures Begin(c, pinned).Some? && Run(c, Begin(c, pinned).value, records) == Replay(c, pinned, records).value
    decreases |records|
  {
    hide Step, Begin;
    if records != [] { ReplayIsRun(c, pinned, records[..|records| - 1]); }
  }

  lemma {:induction false} RunKeepsAnchor(c: Crypto, s: State, attempts: seq<Command>)
    ensures Run(c, s, attempts).pinned == s.pinned
    decreases |attempts|
  {
    hide Admit, Record, Repeats;
    if attempts != [] { RunKeepsAnchor(c, s, attempts[..|attempts| - 1]); }
  }

  /** The grant books after any run: targets map injectively to backup sets, credential IDs are unique, and from every
      grant a finite chain of replacements on its target ends in an active or revoked grant. */
  lemma ReachableGrants(c: Crypto, pinned: Anchor, s: State, k: string) returns (chain: seq<string>)
    requires Reachable(c, pinned, s) && k in s.books.grants
    ensures TargetsSound(s.books.targets) && CredentialsDistinct(s.books.grants) && ConsentsDistinct(s.books.consents)
    ensures Chain(s.books.grants, chain) && chain[0] == k
    ensures forall i :: 0 <= i < |chain| ==> SameTarget(s.books.grants[k], s.books.grants[chain[i]])
    ensures s.books.grants[chain[|chain| - 1]].status.Active? || s.books.grants[chain[|chain| - 1]].status.Revoked?
  {
    ReachableLog(c, pinned, s);
    var rank :| Ranked(s.books.grants, rank, |s.records|);
    hide Reachable, Replay, Ranked, Chain, LogSound, KeysSound, HeadSound;
    chain := ChainEnds(c, s.books, rank, |s.records|, k);
  }

  // ---- repeats ----

  /** Repeating the record at the tail changes nothing. */
  lemma TailRepeat(c: Crypto, s: State)
    requires Inv(c, s) && s.records != [] && c.encodeCommand(s.records[|s.records| - 1]) != []
    ensures Step(c, s, s.records[|s.records| - 1]) == Some(s)
  {
    hide Admit, Commit, Sound, Replay, LogSound, VerifyPossession;
    var last := s.records[|s.records| - 1];
    assert CommandDigest(c, last).Some?;
  }

  /** Repeating an older record is refused. */
  lemma OldRepeatRefused(c: Crypto, s: State, i: nat)
    requires Inv(c, s) && CollisionFree(c) && i + 1 < |s.records|
    ensures Step(c, s, s.records[i]).None?
  {
    hide Commit, Sound, Replay, VerifyPossession, DecodedPayload, KeysSound;
    var last := |s.records| - 1;
    assert RecordSound(c, s.pinned, s.records, i);
    assert CommandID(c, s.records[i]) != CommandID(c, s.records[last]);
    assert c.encodeCommand(s.records[i]) != c.encodeCommand(s.records[last]);
  }

  // ---- one head, one history ----

  /** The digest at a log position determines the anchor and everything before it. */
  lemma {:induction false} ReferencePins(c: Crypto, p: Anchor, xs: seq<Command>, q: Anchor, ys: seq<Command>)
    requires CollisionFree(c) && LogSound(c, p, xs) && LogSound(c, q, ys)
    requires ReferenceBefore(c, p, xs, |xs|).Some? && ReferenceBefore(c, p, xs, |xs|) == ReferenceBefore(c, q, ys, |ys|)
    ensures p == q && xs == ys
    decreases |xs|
  {
    hide DecodedPayload, VerifyPossession;
    assert |xs| == 0 <==> |ys| == 0;
    if |xs| > 0 {
      var m, n := |xs| - 1, |ys| - 1;
      assert xs[m] == ys[n];
      assert RecordSound(c, p, xs, m) && RecordSound(c, q, ys, n);
      PrefixSound(c, p, xs);
      PrefixSound(c, q, ys);
      assert ReferenceBefore(c, p, xs[..m], m) == ReferenceBefore(c, p, xs, m);
      assert ReferenceBefore(c, q, ys[..n], n) == ReferenceBefore(c, q, ys, n);
      ReferencePins(c, p, xs[..m], q, ys[..n]);
      assert xs == xs[..m] + [xs[m]] && ys == ys[..n] + [ys[n]];
    }
  }

  lemma PrefixSound(c: Crypto, p: Anchor, xs: seq<Command>)
    requires LogSound(c, p, xs) && xs != []
    ensures LogSound(c, p, xs[..|xs| - 1])
  {
    hide DecodedPayload, CommandDigest, AnchorDigest, CommandID;
    var front := xs[..|xs| - 1];
    forall i | 0 <= i < |front| ensures RecordSound(c, p, front, i) {
      assert RecordSound(c, p, xs, i);
    }
  }

  /** Two reachable states with one head reference have the same anchor, the same log, and are the same state. */
  lemma SameHeadSameState(c: Crypto, p: Anchor, s: State, q: Anchor, t: State)
    requires CollisionFree(c) && Reachable(c, p, s) && Reachable(c, q, t) &&
      s.head.referenceDigest == t.head.referenceDigest
    ensures p == q && s.records == t.records && s == t
  {
    ReachableLog(c, p, s);
    ReachableLog(c, q, t);
    hide Replay, LogSound, Sound, KeysSound, Reachable, AnchorDigest, CommandDigest;
    ReferencePins(c, p, s.records, q, t.records);
  }

  // ---- every record is signed ----

  /** The anchor in force after the records: the last one rotated to, or the pinned one. */
  function AnchorAfter(c: Crypto, pinned: Anchor, records: seq<Command>): Anchor {
    if records == [] then pinned
    else
      var p := DecodedPayload(c, records[|records| - 1]);
      if p.Some? && p.value.effect.kind.RotateControlKey? && p.value.effect.controlAnchor.Some? then
        p.value.effect.controlAnchor.value
      else AnchorAfter(c, pinned, records[..|records| - 1])
  }

  lemma {:induction false} ReplayIsShort(c: Crypto, pinned: Anchor, records: seq<Command>)
    requires Replay(c, pinned, records).Some?
    ensures |Replay(c, pinned, records).value.records| <= |records|
    decreases |records|
  {
    hide Admit, Record, Repeats, VerifyPossession, CommandDigest, KeyIDs;
    if records != [] { ReplayIsShort(c, pinned, records[..|records| - 1]); }
  }

  lemma {:induction false} ReplaySigned(c: Crypto, pinned: Anchor, records: seq<Command>, i: nat)
    requires Replay(c, pinned, records).Some? && Replay(c, pinned, records).value.records == records
    ensures Replay(c, pinned, records).value.current == AnchorAfter(c, pinned, records)
    ensures i < |records| ==> DecodedPayload(c, records[i]).Some?
    ensures i < |records| ==>
      SignedUnder(c, records[i], DecodedPayload(c, records[i]).value, AnchorAfter(c, pinned, records[..i]))
    decreases |records|
  {
    if records != [] {
      hide SignedUnder, DecodedPayload, Record, Repeats, VerifyPossession, CommandDigest, KeyIDs, EffectValid, Verify;
      var n := |records| - 1;
      var front := records[..n];
      ReplayIsShort(c, pinned, front);
      var t := Replay(c, pinned, front).value;
      assert t.records == front;
      ReplaySigned(c, pinned, front, i);
      assert i < n ==> front[i] == records[i] && front[..i] == records[..i];
    }
  }

  /** Every record of a reachable log was signed by the key in force when it was accepted, for that key's account and
      generation; a rotation was signed by the successor too. */
  lemma ReachableSigned(c: Crypto, pinned: Anchor, s: State, i: nat)
    requires Reachable(c, pinned, s) && i < |s.records|
    ensures DecodedPayload(c, s.records[i]).Some?
    ensures SignedUnder(c, s.records[i], DecodedPayload(c, s.records[i]).value, AnchorAfter(c, pinned, s.records[..i]))
  {
    hide Replay, SignedUnder, Reachable, DecodedPayload, AnchorAfter;
    ReachableLog(c, pinned, s);
    ReplaySigned(c, pinned, s.records, i);
  }
}

/** What the probe mails found on the probe server mean (sortProbeMessages
    and deletedOf in app/modules/probe.go). */
module ProbeSorting {
  import opened Options
  import opened Text
  import opened ProbeMails
  import opened ProbeTiming

  type Uid = nat

  const LEFTOVER_MIN_AGE := 24 * 60 * MINUTE

  datatype Message = Message(uid: Uid, token: Token, identifier: string, from: string, receivedAt: Option<int>)

  datatype ProbeSort = ProbeSort(
    arrivals: map<Token, int>,
    remove: set<Uid>,
    verified: map<Uid, Token>,
    unrecorded: set<Uid>,
    mismatched: map<Token, string>)

  predicate DistinctUids(messages: seq<Message>) {
    forall i, j :: 0 <= i < j < |messages| ==> messages[i].uid != messages[j].uid
  }

  /** The token is recorded and the sender is the recorded address. */
  predicate Verified(m: Message, recorded: map<Token, Row>) {
    m.token in recorded && EqualFold(recorded[m.token].address, m.from)
  }

  /** Deleted without a sender check: the current identifier, old enough, and
      not the token of an open record. */
  predicate Leftover(m: Message, recorded: map<Token, Row>, tag: string, now: int) {
    && !Verified(m, recorded)
    && m.identifier == tag
    && m.receivedAt.Some? && now - m.receivedAt.value >= LEFTOVER_MIN_AGE
    && (m.token in recorded ==> !Open(recorded[m.token].status))
  }

  function ArrivalOf(m: Message, now: int): int {
    m.receivedAt.GetOr(now)
  }

  function VerifiedIn(found: seq<Message>, recorded: map<Token, Row>): set<Message> {
    set m | m in found && Verified(m, recorded)
  }

  function LeftoverIn(found: seq<Message>, recorded: map<Token, Row>, tag: string, now: int): set<Message> {
    set m | m in found && Leftover(m, recorded, tag, now)
  }

  /** A recorded token, another sender. */
  function MismatchedIn(found: seq<Message>, recorded: map<Token, Row>): set<Message> {
    set m | m in found && m.token in recorded && !Verified(m, recorded)
  }

  function Uids(messages: set<Message>): set<Uid> {
    set m | m in messages :: m.uid
  }

  function Tokens(messages: set<Message>): set<Token> {
    set m | m in messages :: m.token
  }

  /** The token of each message. */
  ghost predicate TokenByUid(verified: map<Uid, Token>, messages: set<Message>) {
    verified.Keys == Uids(messages) && forall m :: m in messages ==> verified[m.uid] == m.token
  }

  /** The earliest arrival of each token. */
  ghost predicate Earliest(arrivals: map<Token, int>, messages: set<Message>, now: int) {
    && arrivals.Keys == Tokens(messages)
    && (forall m :: m in messages ==> arrivals[m.token] <= ArrivalOf(m, now))
    && (forall t :: t in arrivals ==> exists m :: m in messages && m.token == t && ArrivalOf(m, now) == arrivals[t])
  }

  /** A sender found for each token. */
  ghost predicate SenderOf(senders: map<Token, string>, messages: set<Message>, tokens: set<Token>) {
    && senders.Keys == tokens
    && (forall t :: t in senders ==> exists m :: m in messages && m.token == t && m.from == senders[t])
  }

  /** What the result holds, said of the set of messages found, whatever their
      order. Only the sender reported for a mismatched token is left open. */
  ghost predicate IsSort(s: ProbeSort, found: seq<Message>, recorded: map<Token, Row>, tag: string, now: int) {
    var verified, leftover, mismatched := VerifiedIn(found, recorded), LeftoverIn(found, recorded, tag, now), MismatchedIn(found, recorded);
    && TokenByUid(s.verified, verified)
    && s.unrecorded == Uids(leftover)
    && s.remove == Uids(verified) + Uids(leftover)
    && Earliest(s.arrivals, verified, now)
    && SenderOf(s.mismatched, mismatched, Tokens(mismatched) - Tokens(verified))
  }

  lemma EarliestIsUnique(a: map<Token, int>, b: map<Token, int>, messages: set<Message>, now: int)
    requires Earliest(a, messages, now) && Earliest(b, messages, now)
    ensures a == b
  {
  }

  lemma TokenByUidIsUnique(a: map<Uid, Token>, b: map<Uid, Token>, messages: set<Message>)
    requires TokenByUid(a, messages) && TokenByUid(b, messages)
    ensures a == b
  {
  }

  /** Whatever the order of the listing, the arrivals (the earliest per token),
      the removal set and its two parts come out the same, and so do the
      tokens reported with another sender. */
  lemma OrderDoesNotMatter(a: ProbeSort, b: ProbeSort, found: seq<Message>, shuffled: seq<Message>,
                           recorded: map<Token, Row>, tag: string, now: int)
    requires IsSort(a, found, recorded, tag, now) && IsSort(b, shuffled, recorded, tag, now)
    requires forall m :: m in found <==> m in shuffled
    ensures a.arrivals == b.arrivals && a.remove == b.remove
    ensures a.verified == b.verified && a.unrecorded == b.unrecorded
    ensures a.mismatched.Keys == b.mismatched.Keys
  {
    assert VerifiedIn(found, recorded) == VerifiedIn(shuffled, recorded);
    assert LeftoverIn(found, recorded, tag, now) == LeftoverIn(shuffled, recorded, tag, now);
    assert MismatchedIn(found, recorded) == MismatchedIn(shuffled, recorded);
    EarliestIsUnique(a.arrivals, b.arrivals, VerifiedIn(found, recorded), now);
    TokenByUidIsUnique(a.verified, b.verified, VerifiedIn(found, recorded));
  }

  /** With distinct UIDs the verified and the unrecorded messages split the
      removal set, and no arrived token is reported with another sender. */
  lemma RemovalSetIsSplit(s: ProbeSort, found: seq<Message>, recorded: map<Token, Row>, tag: string, now: int)
    requires DistinctUids(found) && IsSort(s, found, recorded, tag, now)
    ensures s.remove == s.verified.Keys + s.unrecorded
    ensures s.verified.Keys !! s.unrecorded
    ensures s.mismatched.Keys !! s.arrivals.Keys
  {
  }

  /** The recorded address sent it, up to the case of letters. */
  ghost predicate FromItsAddress(m: Message, recorded: map<Token, Row>) {
    m.token in recorded && SameLetters(recorded[m.token].address, m.from)
  }

  lemma VerifiedExactly(m: Message, recorded: map<Token, Row>)
    ensures Verified(m, recorded) <==> FromItsAddress(m, recorded)
  {
    if m.token in recorded {
      EqualFoldExactly(recorded[m.token].address, m.from);
    }
  }

  lemma LeftoverExactly(m: Message, recorded: map<Token, Row>, tag: string, now: int)
    ensures Leftover(m, recorded, tag, now) <==>
      && !FromItsAddress(m, recorded) && m.identifier == tag
      && m.receivedAt.Some? && now - m.receivedAt.value >= LEFTOVER_MIN_AGE
      && (m.token in recorded ==> recorded[m.token].status in {Arrived, Recovered, Resolved})
  {
    VerifiedExactly(m, recorded);
  }

  lemma SortedByRule(s: ProbeSort, found: seq<Message>, recorded: map<Token, Row>, tag: string, now: int, m: Message)
    requires DistinctUids(found) && IsSort(s, found, recorded, tag, now) && m in found
    ensures m.uid in s.verified <==> Verified(m, recorded)
    ensures m.uid in s.unrecorded <==> Leftover(m, recorded, tag, now)
    ensures m.uid in s.remove <==> m.uid in s.verified || m.uid in s.unrecorded
    ensures Verified(m, recorded) ==>
      s.verified[m.uid] == m.token && m.token in s.arrivals && s.arrivals[m.token] <= m.receivedAt.GetOr(now)
  {
    UidDecides(VerifiedIn(found, recorded), found, m);
    UidDecides(LeftoverIn(found, recorded, tag, now), found, m);
  }

  /** Message by message: one of a recorded mail from its address is verified,
      arrives and goes; any other one goes only with the current identifier, a
      day old and while no open record has its token; the rest stays. */
  lemma SortedExactly(s: ProbeSort, found: seq<Message>, recorded: map<Token, Row>, tag: string, now: int, m: Message)
    requires DistinctUids(found) && IsSort(s, found, recorded, tag, now) && m in found
    ensures m.uid in s.verified <==> FromItsAddress(m, recorded)
    ensures FromItsAddress(m, recorded) ==>
      && s.verified[m.uid] == m.token && m.token in s.arrivals
      && s.arrivals[m.token] <= (if m.receivedAt.Some? then m.receivedAt.value else now)
    ensures m.uid in s.unrecorded <==>
      && !FromItsAddress(m, recorded) && m.identifier == tag
      && m.receivedAt.Some? && now - m.receivedAt.value >= LEFTOVER_MIN_AGE
      && (m.token in recorded ==> recorded[m.token].status in {Arrived, Recovered, Resolved})
    ensures m.uid in s.remove <==> m.uid in s.verified || m.uid in s.unrecorded
  {
    SortedByRule(s, found, recorded, tag, now, m);
    VerifiedExactly(m, recorded);
    LeftoverExactly(m, recorded, tag, now);
  }

  /** A token is reported with another sender exactly when a message of it was
      found and none from the recorded address. */
  lemma MismatchedExactly(s: ProbeSort, found: seq<Message>, recorded: map<Token, Row>, tag: string, now: int, token: Token)
    requires IsSort(s, found, recorded, tag, now) && token in recorded
    ensures token in s.mismatched <==>
      && (exists m :: m in found && m.token == token)
      && (forall m :: m in found && m.token == token ==> !FromItsAddress(m, recorded))
  {
    forall m | m in found
      ensures Verified(m, recorded) <==> FromItsAddress(m, recorded)
    {
      VerifiedExactly(m, recorded);
    }
    var verified, mismatched := VerifiedIn(found, recorded), MismatchedIn(found, recorded);
    assert token in s.mismatched <==> token in Tokens(mismatched) && token !in Tokens(verified);
    assert token in Tokens(verified) <==> exists m :: m in verified && m.token == token;
    assert token in Tokens(mismatched) <==> exists m :: m in mismatched && m.token == token;
  }

  /** With distinct UIDs a UID says which message it is. */
  lemma UidDecides(messages: set<Message>, found: seq<Message>, m: Message)
    requires DistinctUids(found) && m in found && forall n :: n in messages ==> n in found
    ensures m.uid in Uids(messages) <==> m in messages
  {
  }

  /** The arrival of a token is the one of a verified message of it. */
  lemma ArrivalIsFound(s: ProbeSort, found: seq<Message>, recorded: map<Token, Row>, tag: string, now: int, token: Token) returns (m: Message)
    requires IsSort(s, found, recorded, tag, now) && token in s.arrivals
    ensures m in found && m.token == token && FromItsAddress(m, recorded)
    ensures s.arrivals[token] == if m.receivedAt.Some? then m.receivedAt.value else now
  {
    m :| m in VerifiedIn(found, recorded) && m.token == token && ArrivalOf(m, now) == s.arrivals[token];
    VerifiedExactly(m, recorded);
  }

  lemma EarliestStep(arrivals: map<Token, int>, messages: set<Message>, m: Message, now: int)
    requires Earliest(arrivals, messages, now)
    ensures Earliest(if m.token !in arrivals || ArrivalOf(m, now) < arrivals[m.token] then arrivals[m.token := ArrivalOf(m, now)] else arrivals,
                     messages + {m}, now)
  {
  }

  lemma TokenByUidStep(verified: map<Uid, Token>, messages: set<Message>, m: Message)
    requires TokenByUid(verified, messages) && forall n :: n in messages ==> n.uid != m.uid
    ensures TokenByUid(verified[m.uid := m.token], messages + {m})
  {
  }

  lemma SenderStep(senders: map<Token, string>, messages: set<Message>, m: Message)
    requires SenderOf(senders, messages, Tokens(messages))
    ensures SenderOf(senders[m.token := m.from], messages + {m}, Tokens(messages + {m}))
  {
  }

  /** The three sets of messages after one more. */
  lemma SetsStep(before: seq<Message>, m: Message, recorded: map<Token, Row>, tag: string, now: int)
    ensures VerifiedIn(before + [m], recorded) == VerifiedIn(before, recorded) + (if Verified(m, recorded) then {m} else {})
    ensures LeftoverIn(before + [m], recorded, tag, now) == LeftoverIn(before, recorded, tag, now) + (if Leftover(m, recorded, tag, now) then {m} else {})
    ensures MismatchedIn(before + [m], recorded) ==
            MismatchedIn(before, recorded) + (if m.token in recorded && !Verified(m, recorded) then {m} else {})
  {
  }

  function WithVerified(s: ProbeSort, m: Message, now: int): ProbeSort {
    var at := ArrivalOf(m, now);
    s.(arrivals := if m.token !in s.arrivals || at < s.arrivals[m.token] then s.arrivals[m.token := at] else s.arrivals,
       remove := s.remove + {m.uid}, verified := s.verified[m.uid := m.token])
  }

  function WithNext(s: ProbeSort, m: Message, recorded: map<Token, Row>, tag: string, now: int): ProbeSort {
    if Verified(m, recorded) then WithVerified(s, m, now)
    else
      var t := if m.token in recorded then s.(mismatched := s.mismatched[m.token := m.from]) else s;
      if Leftover(m, recorded, tag, now) then t.(remove := t.remove + {m.uid}, unrecorded := t.unrecorded + {m.uid}) else t
  }

  /** The messages one after the other: the tokens that arrived are still among
      the mismatched ones. */
  function Collected(found: seq<Message>, recorded: map<Token, Row>, tag: string, now: int): ProbeSort {
    if found == [] then ProbeSort(map[], {}, map[], {}, map[])
    else
      var last := |found| - 1;
      WithNext(Collected(found[..last], recorded, tag, now), found[last], recorded, tag, now)
  }

  lemma {:induction false} CollectedVerified(found: seq<Message>, recorded: map<Token, Row>, tag: string, now: int)
    requires DistinctUids(found)
    ensures TokenByUid(Collected(found, recorded, tag, now).verified, VerifiedIn(found, recorded))
  {
    if found != [] {
      var before, m := found[..|found| - 1], found[|found| - 1];
      assert found == before + [m];
      CollectedVerified(before, recorded, tag, now);
      SetsStep(before, m, recorded, tag, now);
      TokenByUidStep(Collected(before, recorded, tag, now).verified, VerifiedIn(before, recorded), m);
    }
  }

  lemma {:induction false} CollectedUids(found: seq<Message>, recorded: map<Token, Row>, tag: string, now: int)
    ensures Collected(found, recorded, tag, now).unrecorded == Uids(LeftoverIn(found, recorded, tag, now))
    ensures Collected(found, recorded, tag, now).remove == Uids(VerifiedIn(found, recorded)) + Uids(LeftoverIn(found, recorded, tag, now))
  {
    if found != [] {
      var before, m := found[..|found| - 1], found[|found| - 1];
      assert found == before + [m];
      CollectedUids(before, recorded, tag, now);
      SetsStep(before, m, recorded, tag, now);
      UidsStep(LeftoverIn(before, recorded, tag, now), m);
      UidsStep(VerifiedIn(before, recorded), m);
    }
  }

  lemma UidsStep(messages: set<Message>, m: Message)
    ensures Uids(messages + {m}) == Uids(messages) + {m.uid}
  {
  }

  lemma {:induction false} CollectedArrivals(found: seq<Message>, recorded: map<Token, Row>, tag: string, now: int)
    ensures Earliest(Collected(found, recorded, tag, now).arrivals, VerifiedIn(found, recorded), now)
  {
    if found != [] {
      var before, m := found[..|found| - 1], found[|found| - 1];
      assert found == before + [m];
      CollectedArrivals(before, recorded, tag, now);
      SetsStep(before, m, recorded, tag, now);
      EarliestStep(Collected(before, recorded, tag, now).arrivals, VerifiedIn(before, recorded), m, now);
    }
  }

  lemma {:induction false} CollectedSenders(found: seq<Message>, recorded: map<Token, Row>, tag: string, now: int)
    ensures SenderOf(Collected(found, recorded, tag, now).mismatched, MismatchedIn(found, recorded), Tokens(MismatchedIn(found, recorded)))
  {
    if found != [] {
      var before, m := found[..|found| - 1], found[|found| - 1];
      assert found == before + [m];
      CollectedSenders(before, recorded, tag, now);
      SetsStep(before, m, recorded, tag, now);
      SenderStep(Collected(before, recorded, tag, now).mismatched, MismatchedIn(before, recorded), m);
    }
  }

  lemma CollectedIsSort(found: seq<Message>, recorded: map<Token, Row>, tag: string, now: int)
    requires DistinctUids(found)
    ensures var s := Collected(found, recorded, tag, now);
            IsSort(s.(mismatched := s.mismatched - s.arrivals.Keys), found, recorded, tag, now)
  {
    CollectedVerified(found, recorded, tag, now);
    CollectedUids(found, recorded, tag, now);
    CollectedArrivals(found, recorded, tag, now);
    CollectedSenders(found, recorded, tag, now);
  }

  /** One listing decides arrivals and deletions. */
  method SortProbeMessages(found: seq<Message>, recorded: map<Token, Row>, tag: string, now: int) returns (out: ProbeSort)
    requires DistinctUids(found)
    ensures IsSort(out, found, recorded, tag, now)
  {
    out := ProbeSort(map[], {}, map[], {}, map[]);
    for i := 0 to |found|
      invariant out == Collected(found[..i], recorded, tag, now)
    {
      var m := found[i];
      assert found[..i + 1][..i] == found[..i];
      if Verified(m, recorded) {
        var at := m.receivedAt.GetOr(now);
        if m.token !in out.arrivals || at < out.arrivals[m.token] {
          out := out.(arrivals := out.arrivals[m.token := at]);
        }
        out := out.(remove := out.remove + {m.uid}, verified := out.verified[m.uid := m.token]);
        continue;
      }
      if m.token in recorded {
        out := out.(mismatched := out.mismatched[m.token := m.from]);
      }
      var aged := m.receivedAt.Some? && now - m.receivedAt.value >= LEFTOVER_MIN_AGE;
      if m.identifier == tag && aged && (m.token !in recorded || !Open(recorded[m.token].status)) {
        out := out.(remove := out.remove + {m.uid}, unrecorded := out.unrecorded + {m.uid});
      }
    }
    assert found[..|found|] == found;
    CollectedIsSort(found, recorded, tag, now);
    out := out.(mismatched := out.mismatched - out.arrivals.Keys);
  }

  // --- What a deletion removed ---

  /** The verified messages of the token not deleted. */
  ghost function Left(verified: map<Uid, Token>, token: Token, deleted: seq<Message>): set<Uid> {
    set u | u in verified && verified[u] == token && forall m :: m in deleted ==> m.uid != u
  }

  /** The deleted messages of the unrecorded ones. */
  ghost function UnrecordedOf(s: ProbeSort, deleted: seq<Message>): set<Message> {
    set m | m in deleted && m.uid in s.unrecorded
  }

  /** The tokens every verified message of which was deleted, each once, and
      how many messages were deleted under the rule for the unrecorded ones. */
  method DeletedOf(s: ProbeSort, deleted: seq<Message>) returns (gone: seq<Token>, unrecorded: nat)
    requires DistinctUids(deleted)
    ensures forall t :: t in gone <==> t in s.verified.Values && Left(s.verified, t, deleted) == {}
    ensures forall i, j :: 0 <= i < j < |gone| ==> gone[i] != gone[j]
    ensures unrecorded == |UnrecordedOf(s, deleted)|
  {
    var left := CountVerified(s.verified);
    gone, unrecorded := [], 0;
    for i := 0 to |deleted|
      invariant Counts(left, s.verified, deleted[..i])
      invariant IsGone(gone, s.verified, deleted[..i])
      invariant unrecorded == |UnrecordedOf(s, deleted[..i])|
    {
      var m := deleted[i];
      assert deleted[..i + 1] == deleted[..i] + [m];
      UnrecordedStep(s, deleted[..i], m);
      if m.uid in s.unrecorded {
        unrecorded := unrecorded + 1;
      }
      if m.uid in s.verified {
        var token := s.verified[m.uid];
        LeftStep(s.verified, deleted[..i], m);
        GoneStep(gone, s.verified, deleted[..i], m);
        left := left[token := left[token] - 1];
        if left[token] == 0 {
          gone := gone + [token];
        }
      } else {
        LeftSame(s.verified, deleted[..i], m);
      }
    }
    assert deleted[..|deleted|] == deleted;
  }

  ghost predicate Counts(left: map<Token, int>, verified: map<Uid, Token>, deleted: seq<Message>) {
    left.Keys == verified.Values && forall t :: t in left ==> left[t] == |Left(verified, t, deleted)|
  }

  ghost predicate IsGone(gone: seq<Token>, verified: map<Uid, Token>, deleted: seq<Message>) {
    && (forall t :: t in gone <==> t in verified.Values && Left(verified, t, deleted) == {})
    && (forall i, j :: 0 <= i < j < |gone| ==> gone[i] != gone[j])
  }

  lemma GoneStep(gone: seq<Token>, verified: map<Uid, Token>, before: seq<Message>, m: Message)
    requires IsGone(gone, verified, before) && (forall n :: n in before ==> n.uid != m.uid) && m.uid in verified
    ensures IsGone(if Left(verified, verified[m.uid], before + [m]) == {} then gone + [verified[m.uid]] else gone, verified, before + [m])
  {
    LeftStep(verified, before, m);
  }

  lemma UnrecordedStep(s: ProbeSort, before: seq<Message>, m: Message)
    requires forall n :: n in before ==> n.uid != m.uid
    ensures |UnrecordedOf(s, before + [m])| == |UnrecordedOf(s, before)| + (if m.uid in s.unrecorded then 1 else 0)
  {
    assert UnrecordedOf(s, before + [m]) == UnrecordedOf(s, before) + (if m.uid in s.unrecorded then {m} else {});
    assert m !in UnrecordedOf(s, before);
  }

  lemma LeftStep(verified: map<Uid, Token>, before: seq<Message>, m: Message)
    requires (forall n :: n in before ==> n.uid != m.uid) && m.uid in verified
    ensures |Left(verified, verified[m.uid], before + [m])| == |Left(verified, verified[m.uid], before)| - 1
    ensures forall t :: t != verified[m.uid] ==> Left(verified, t, before + [m]) == Left(verified, t, before)
  {
    var t := verified[m.uid];
    assert m.uid in Left(verified, t, before);
    assert Left(verified, t, before + [m]) == Left(verified, t, before) - {m.uid};
  }

  lemma LeftSame(verified: map<Uid, Token>, before: seq<Message>, m: Message)
    requires m.uid !in verified
    ensures forall t :: Left(verified, t, before + [m]) == Left(verified, t, before)
  {
  }

  /** How many verified messages each token has. */
  method CountVerified(verified: map<Uid, Token>) returns (left: map<Token, int>)
    ensures Counts(left, verified, [])
    ensures forall t :: t in left ==> Left(verified, t, []) != {}
  {
    left := map[];
    var todo := verified.Keys;
    while todo != {}
      invariant todo <= verified.Keys
      invariant forall t :: t in left <==> LeftOf(verified, t, verified.Keys - todo) != {}
      invariant forall t :: t in left ==> left[t] == |LeftOf(verified, t, verified.Keys - todo)|
    {
      var u :| u in todo;
      var token := verified[u];
      LeftOfStep(verified, verified.Keys - todo, u);
      assert verified.Keys - (todo - {u}) == verified.Keys - todo + {u};
      left := left[token := (if token in left then left[token] else 0) + 1];
      todo := todo - {u};
    }
    assert verified.Keys - todo == verified.Keys;
    forall t
      ensures LeftOf(verified, t, verified.Keys) == Left(verified, t, [])
      ensures t in verified.Values <==> Left(verified, t, []) != {}
    {
      if t in verified.Values {
        var u :| u in verified && verified[u] == t;
        assert u in Left(verified, t, []);
      }
    }
  }

  ghost function LeftOf(verified: map<Uid, Token>, token: Token, uids: set<Uid>): set<Uid>
    requires uids <= verified.Keys
  {
    set u | u in uids && verified[u] == token
  }

  lemma LeftOfStep(verified: map<Uid, Token>, uids: set<Uid>, u: Uid)
    requires uids <= verified.Keys && u in verified && u !in uids
    ensures |LeftOf(verified, verified[u], uids + {u})| == |LeftOf(verified, verified[u], uids)| + 1
    ensures LeftOf(verified, verified[u], uids + {u}) != {}
    ensures forall t :: t != verified[u] ==> LeftOf(verified, t, uids + {u}) == LeftOf(verified, t, uids)
  {
    assert LeftOf(verified, verified[u], uids + {u}) == LeftOf(verified, verified[u], uids) + {u};
  }
}

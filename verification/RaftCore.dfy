/**
The part of the protocol that safety rests on: who holds which term and log, which votes and
acknowledgements were ever given, and the log of every leader that was ever elected. Each
lemma says that one kind of protocol step keeps the invariant `CoreInv`.
*/
module RaftCore {
  import opened RaftTypes

  /** `voter` voted in `term` for `cand`, whose log then ended at (lastIndex, lastTerm). */
  datatype Vote = Vote(voter: nat, term: nat, cand: nat, lastIndex: int, lastTerm: nat)

  /** `server`, in `term`, held the first `len` entries of that term's leader. */
  datatype Ack = Ack(server: nat, term: nat, len: nat)

  /** An elected leader, the servers that elected it, and its log so far. */
  datatype Reign = Reign(leader: nat, voters: set<nat>, log: Log)

  datatype Core = Core(
    term: seq<nat>, log: seq<Log>, votes: set<Vote>, acks: set<Ack>, reigns: map<nat, Reign>)

  ghost predicate Shape(k: Core) {
    |k.term| == |k.log|
  }

  /** Every entry comes from the leader of its term, together with everything before it. */
  ghost predicate LogOk(reigns: map<nat, Reign>, log: Log) {
    && |log| > 0
    && log[0] == SENTINEL
    && forall i :: 0 < i < |log| ==> EntryOk(reigns, log, i)
  }

  ghost predicate EntryOk(reigns: map<nat, Reign>, log: Log, i: nat)
    requires i < |log|
  {
    && log[i].term in reigns
    && SamePrefix(log, reigns[log[i].term].log, i + 1)
  }

  ghost predicate TermsUpTo(log: Log, bound: nat) {
    forall i :: 0 <= i < |log| ==> log[i].term <= bound
  }

  ghost predicate LogsOk(k: Core)
    requires Shape(k)
  {
    && (forall q :: 0 <= q < |k.log| ==> LogOk(k.reigns, k.log[q]) && TermsUpTo(k.log[q], k.term[q]))
    && (forall t :: t in k.reigns ==> t > 0 && LogOk(k.reigns, k.reigns[t].log) && TermsUpTo(k.reigns[t].log, t))
  }

  ghost predicate VotedFor(votes: set<Vote>, voter: nat, term: nat, cand: nat) {
    exists v :: v in votes && v.voter == voter && v.term == term && v.cand == cand
  }

  ghost predicate VotesOk(k: Core)
    requires Shape(k)
  {
    && (forall v :: v in k.votes ==> v.voter < |k.term| && v.term <= k.term[v.voter])
    && (forall v, w :: v in k.votes && w in k.votes && v.voter == w.voter && v.term == w.term ==> v.cand == w.cand)
  }

  ghost predicate ReignsOk(k: Core)
    requires Shape(k)
  {
    forall t :: t in k.reigns ==>
      && k.reigns[t].leader < |k.term|
      && IsQuorum(|k.term|, k.reigns[t].voters)
      && (forall x :: x in k.reigns[t].voters ==> VotedFor(k.votes, x, t, k.reigns[t].leader))
      && Ack(k.reigns[t].leader, t, |k.reigns[t].log|) in k.acks
  }

  ghost predicate AcksOk(k: Core)
    requires Shape(k)
  {
    forall a :: a in k.acks ==>
      && a.server < |k.term|
      && a.term <= k.term[a.server]
      && a.term in k.reigns
      && a.len <= |k.reigns[a.term].log|
  }

  /** Index `m` of the leader of `t` holds an entry that this leader created itself. */
  ghost predicate OwnEntry(reigns: map<nat, Reign>, t: nat, m: nat) {
    t in reigns && m < |reigns[t].log| && reigns[t].log[m].term == t
  }

  ghost predicate Acked(acks: set<Ack>, q: nat, t: nat, m: nat) {
    exists a :: a in acks && a.server == q && a.term == t && m < a.len
  }

  /** A majority has acknowledged, or is still in a position to acknowledge, entry `m` of term `t`. */
  ghost predicate Choosable(k: Core, t: nat, m: nat)
    requires Shape(k)
  {
    && OwnEntry(k.reigns, t, m)
    && exists qs :: ChoosableBy(k, t, m, qs)
  }

  ghost predicate ChoosableBy(k: Core, t: nat, m: nat, qs: set<nat>)
    requires Shape(k)
  {
    && IsQuorum(|k.term|, qs)
    && forall q :: q in qs ==> k.term[q] <= t || Acked(k.acks, q, t, m)
  }

  /** A majority has acknowledged entry `m` of term `t`. */
  ghost predicate Chosen(n: nat, acks: set<Ack>, reigns: map<nat, Reign>, t: nat, m: nat) {
    && OwnEntry(reigns, t, m)
    && exists qs :: ChosenBy(n, acks, t, m, qs)
  }

  ghost predicate ChosenBy(n: nat, acks: set<Ack>, t: nat, m: nat, qs: set<nat>) {
    && IsQuorum(n, qs)
    && forall q :: q in qs ==> Acked(acks, q, t, m)
  }

  /** A server that acknowledged a choosable entry still holds it. */
  ghost predicate AcksHeld(k: Core)
    requires Shape(k) && AcksOk(k)
  {
    forall a, m :: a in k.acks && 0 <= m < a.len && Choosable(k, a.term, m) ==>
      SamePrefix(k.log[a.server], k.reigns[a.term].log, m + 1)
  }

  /** The leader of every later term holds every choosable entry. */
  ghost predicate LeadersComplete(k: Core)
    requires Shape(k)
  {
    forall t: nat, u: nat, m: nat :: t < u && u in k.reigns && Choosable(k, t, m) ==>
      SamePrefix(k.reigns[u].log, k.reigns[t].log, m + 1)
  }

  /** A vote given after acknowledging a choosable entry went to a candidate whose log reaches it. */
  ghost predicate VotesInformed(k: Core)
    requires Shape(k)
  {
    forall v, a, m :: v in k.votes && a in k.acks && 0 <= m < a.len ==> Informed(k, v, a, m)
  }

  ghost predicate Informed(k: Core, v: Vote, a: Ack, m: nat)
    requires Shape(k)
  {
    v.voter == a.server && a.term < v.term && Choosable(k, a.term, m) ==> Reaches(v, a.term, m)
  }

  ghost predicate Reaches(v: Vote, t: nat, m: nat) {
    v.lastTerm > t || (v.lastTerm == t && v.lastIndex >= m)
  }

  ghost predicate CoreInv(k: Core) {
    && Shape(k)
    && LogsOk(k)
    && VotesOk(k)
    && ReignsOk(k)
    && AcksOk(k)
    && AcksHeld(k)
    && LeadersComplete(k)
    && VotesInformed(k)
  }

  // ---------- Log matching ----------

  /** Two logs with the same term at an index agree on everything up to that index. */
  lemma LogMatching(reigns: map<nat, Reign>, a: Log, b: Log, i: nat)
    requires LogOk(reigns, a) && LogOk(reigns, b)
    requires i < |a| && i < |b| && a[i].term == b[i].term
    ensures SamePrefix(a, b, i + 1)
  {
    if i > 0 {
      assert EntryOk(reigns, a, i) && EntryOk(reigns, b, i);
    }
  }

  /** Terms never decrease along a log. */
  lemma TermsSorted(k: Core, log: Log, i: nat, j: nat)
    requires Shape(k) && LogsOk(k) && LogOk(k.reigns, log)
    requires i <= j < |log|
    ensures log[i].term <= log[j].term
  {
    if i < j {
      assert EntryOk(k.reigns, log, j);
      var t := log[j].term;
      assert log[i] == k.reigns[t].log[i];
      assert TermsUpTo(k.reigns[t].log, t);
    }
  }

  lemma PrefixOk(reigns: map<nat, Reign>, log: Log, len: nat)
    requires LogOk(reigns, log) && 0 < len <= |log|
    ensures LogOk(reigns, log[..len])
  {
    var cut := log[..len];
    forall i | 0 < i < |cut|
      ensures EntryOk(reigns, cut, i)
    {
      assert EntryOk(reigns, log, i);
    }
  }

  // ---------- Choosable entries only become fewer ----------

  /** If every server that can still acknowledge could do so before, choosable entries were choosable. */
  lemma ChoosableBefore(k: Core, k': Core, t: nat, m: nat)
    requires Shape(k) && Shape(k') && |k.term| == |k'.term|
    requires Choosable(k', t, m) && OwnEntry(k.reigns, t, m)
    requires forall q :: 0 <= q < |k.term| && (k'.term[q] <= t || Acked(k'.acks, q, t, m)) ==>
               k.term[q] <= t || Acked(k.acks, q, t, m)
    ensures Choosable(k, t, m)
  {
    var qs :| ChoosableBy(k', t, m, qs);
    assert ChoosableBy(k, t, m, qs);
  }

  lemma ChosenIsChoosable(k: Core, t: nat, m: nat)
    requires Shape(k) && Chosen(|k.term|, k.acks, k.reigns, t, m)
    ensures Choosable(k, t, m)
  {
    var qs :| ChosenBy(|k.term|, k.acks, t, m, qs);
    assert ChoosableBy(k, t, m, qs);
  }

  lemma StillInformed(k: Core, k': Core)
    requires Shape(k) && Shape(k') && VotesInformed(k) && k'.votes == k.votes && k'.acks == k.acks
    requires forall t: nat, m: nat :: Choosable(k', t, m) ==> Choosable(k, t, m)
    ensures VotesInformed(k')
  {
    forall v, a, m | v in k'.votes && a in k'.acks && 0 <= m < a.len
      ensures Informed(k', v, a, m)
    {
      assert Informed(k, v, a, m);
    }
  }

  // ---------- Steps ----------

  /** A server moves to a later term. */
  lemma Rise(k: Core, q: nat, t: nat)
    requires CoreInv(k) && q < |k.term| && k.term[q] <= t
    ensures CoreInv(k.(term := k.term[q := t]))
  {
    var k' := k.(term := k.term[q := t]);
    forall t0: nat, m: nat | Choosable(k', t0, m)
      ensures Choosable(k, t0, m)
    {
      ChoosableBefore(k, k', t0, m);
    }
    StillInformed(k, k');
  }

  /** A server votes, moving to the candidate's term. */
  lemma CastVote(k: Core, v: Vote)
    requires CoreInv(k) && v.voter < |k.term| && k.term[v.voter] <= v.term
    requires forall w :: w in k.votes && w.voter == v.voter && w.term == v.term ==> w.cand == v.cand
    requires UpToDate(v.lastIndex, v.lastTerm, k.log[v.voter])
    ensures CoreInv(k.(term := k.term[v.voter := v.term], votes := k.votes + {v}))
  {
    Rise(k, v.voter, v.term);
    RecordVote(k.(term := k.term[v.voter := v.term]), v);
  }

  lemma RecordVote(k: Core, v: Vote)
    requires CoreInv(k) && v.voter < |k.term| && k.term[v.voter] == v.term
    requires forall w :: w in k.votes && w.voter == v.voter && w.term == v.term ==> w.cand == v.cand
    requires UpToDate(v.lastIndex, v.lastTerm, k.log[v.voter])
    ensures CoreInv(k.(votes := k.votes + {v}))
  {
    var k' := k.(votes := k.votes + {v});
    forall t0: nat, m: nat | Choosable(k', t0, m)
      ensures Choosable(k, t0, m)
    {
      ChoosableBefore(k, k', t0, m);
    }
    forall t, x | t in k'.reigns && x in k'.reigns[t].voters
      ensures VotedFor(k'.votes, x, t, k'.reigns[t].leader)
    {
      assert VotedFor(k.votes, x, t, k.reigns[t].leader);
    }
    forall w, a, m | w in k'.votes && a in k'.acks && 0 <= m < a.len
      ensures Informed(k', w, a, m)
    {
      if w == v {
        VoteInformed(k, v, a, m);
      } else {
        assert Informed(k, w, a, m);
      }
    }
  }

  lemma VoteInformed(k: Core, v: Vote, a: Ack, m: nat)
    requires CoreInv(k) && v.voter < |k.term| && a in k.acks && m < a.len
    requires UpToDate(v.lastIndex, v.lastTerm, k.log[v.voter])
    ensures Informed(k, v, a, m)
  {
    if v.voter == a.server && Choosable(k, a.term, m) {
      var log := k.log[v.voter];
      assert SamePrefix(log, k.reigns[a.term].log, m + 1);
      TermsSorted(k, log, m, |log| - 1);
    }
  }

  /** A server records that it holds the first `len` entries of its term's leader. */
  lemma Acknowledge(k: Core, a: Ack)
    requires CoreInv(k) && a.server < |k.term| && a.term == k.term[a.server] && a.term in k.reigns
    requires SamePrefix(k.log[a.server], k.reigns[a.term].log, a.len)
    ensures CoreInv(k.(acks := k.acks + {a}))
  {
    var k' := k.(acks := k.acks + {a});
    forall t0: nat, m: nat | Choosable(k', t0, m)
      ensures Choosable(k, t0, m)
    {
      AckedBefore(k, a, t0, m);
      ChoosableBefore(k, k', t0, m);
    }
    forall v, b, m | v in k'.votes && b in k'.acks && 0 <= m < b.len
      ensures Informed(k', v, b, m)
    {
      if b in k.acks {
        assert Informed(k, v, b, m);
      }
    }
  }

  /**
  `log'` is cut from the log of `q` or from that of the leader of `t`, and keeps whatever the
  two had in common.
  */
  ghost predicate CanAccept(k: Core, q: nat, t: nat, log': Log) {
    && q < |k.term| == |k.log|
    && k.term[q] <= t
    && t in k.reigns
    && |log'| > 0
    && (SamePrefix(log', k.log[q], |log'|) || SamePrefix(log', k.reigns[t].log, |log'|))
    && forall len: nat :: SamePrefix(k.log[q], k.reigns[t].log, len) ==> SamePrefix(log', k.reigns[t].log, len)
  }

  /** A follower changes its log after a message from the leader of `t`. */
  lemma Accept(k: Core, q: nat, t: nat, log': Log)
    requires CoreInv(k) && CanAccept(k, q, t, log')
    ensures CoreInv(k.(term := k.term[q := t], log := k.log[q := log']))
  {
    Rise(k, q, t);
    AcceptInTerm(k.(term := k.term[q := t]), q, t, log');
  }

  lemma AcceptInTerm(k: Core, q: nat, t: nat, log': Log)
    requires CoreInv(k) && CanAccept(k, q, t, log') && k.term[q] == t
    ensures CoreInv(k.(log := k.log[q := log']))
  {
    var k' := k.(log := k.log[q := log']);
    AcceptLogs(k, q, t, log');
    forall t0: nat, m: nat | Choosable(k', t0, m)
      ensures Choosable(k, t0, m)
    {
      ChoosableBefore(k, k', t0, m);
    }
    forall a, m | a in k'.acks && 0 <= m < a.len && Choosable(k', a.term, m)
      ensures SamePrefix(k'.log[a.server], k'.reigns[a.term].log, m + 1)
    {
      assert SamePrefix(k.log[a.server], k.reigns[a.term].log, m + 1);
      if a.server == q {
        assert SamePrefix(k.reigns[t].log, k.reigns[a.term].log, m + 1);
        assert SamePrefix(k.log[q], k.reigns[t].log, m + 1);
      }
    }
    StillInformed(k, k');
  }

  lemma AcceptLogs(k: Core, q: nat, t: nat, log': Log)
    requires CoreInv(k) && CanAccept(k, q, t, log') && k.term[q] == t
    ensures LogsOk(k.(log := k.log[q := log']))
  {
    if SamePrefix(log', k.log[q], |log'|) {
      assert log' == k.log[q][..|log'|];
      PrefixOk(k.reigns, k.log[q], |log'|);
    } else {
      assert log' == k.reigns[t].log[..|log'|];
      PrefixOk(k.reigns, k.reigns[t].log, |log'|);
    }
  }

  ghost predicate CanLead(k: Core, q: nat, e: LogEntry) {
    && CoreInv(k)
    && q < |k.term|
    && k.term[q] in k.reigns
    && e.term == k.term[q]
    && k.reigns[k.term[q]].leader == q
    && k.reigns[k.term[q]].log == k.log[q]
  }

  ghost function Led(k: Core, q: nat, e: LogEntry): Core
    requires CanLead(k, q, e)
  {
    var log' := k.log[q] + [e];
    k.(log := k.log[q := log'],
       reigns := k.reigns[e.term := k.reigns[e.term].(log := log')],
       acks := k.acks + {Ack(q, e.term, |log'|)})
  }

  /** A leader appends an entry of its own term. */
  lemma Lead(k: Core, q: nat, e: LogEntry)
    requires CanLead(k, q, e)
    ensures CoreInv(Led(k, q, e))
  {
    LeadLogs(k, q, e);
    LeadReigns(k, q, e);
    LeadChoosable(k, q, e);
    LeadNewest(k, q, e);
    LeadHeld(k, q, e);
    LeadComplete(k, q, e);
    LeadInformed(k, q, e);
  }

  lemma LeadReigns(k: Core, q: nat, e: LogEntry)
    requires CanLead(k, q, e)
    ensures ReignsOk(Led(k, q, e))
    ensures AcksOk(Led(k, q, e))
  {
    var k' := Led(k, q, e);
    forall u, x | u in k'.reigns && x in k'.reigns[u].voters
      ensures VotedFor(k'.votes, x, u, k'.reigns[u].leader)
    {
      assert VotedFor(k.votes, x, u, k.reigns[u].leader);
    }
  }

  lemma LeadHeld(k: Core, q: nat, e: LogEntry)
    requires CanLead(k, q, e)
    requires AcksOk(Led(k, q, e))
    requires forall t0: nat, m: nat :: Choosable(Led(k, q, e), t0, m) && !(t0 == e.term && m == |k.log[q]|) ==>
               Choosable(k, t0, m)
    ensures AcksHeld(Led(k, q, e))
  {
    hide LogsOk, VotesOk, ReignsOk, LeadersComplete, VotesInformed, Choosable;
    var k' := Led(k, q, e);
    forall a, m | a in k'.acks && 0 <= m < a.len && Choosable(k', a.term, m)
      ensures SamePrefix(k'.log[a.server], k'.reigns[a.term].log, m + 1)
    {
      if a in k.acks {
        assert SamePrefix(k.log[a.server], k.reigns[a.term].log, m + 1);
      }
    }
  }

  lemma LeadComplete(k: Core, q: nat, e: LogEntry)
    requires CanLead(k, q, e)
    requires forall t0: nat, m: nat :: Choosable(Led(k, q, e), t0, m) && !(t0 == e.term && m == |k.log[q]|) ==>
               Choosable(k, t0, m)
    requires Choosable(Led(k, q, e), e.term, |k.log[q]|) ==> forall u :: u in k.reigns ==> u <= e.term
    ensures LeadersComplete(Led(k, q, e))
  {
    hide LogsOk, VotesOk, AcksOk, AcksHeld, VotesInformed;
    var k' := Led(k, q, e);
    forall t: nat, u: nat, m: nat | t < u && u in k'.reigns && Choosable(k', t, m)
      ensures SamePrefix(k'.reigns[u].log, k'.reigns[t].log, m + 1)
    {
      assert Choosable(k, t, m);
      assert SamePrefix(k.reigns[u].log, k.reigns[t].log, m + 1);
    }
  }

  lemma LeadInformed(k: Core, q: nat, e: LogEntry)
    requires CanLead(k, q, e)
    requires forall t0: nat, m: nat :: Choosable(Led(k, q, e), t0, m) && !(t0 == e.term && m == |k.log[q]|) ==>
               Choosable(k, t0, m)
    ensures VotesInformed(Led(k, q, e))
  {
    var k' := Led(k, q, e);
    forall v, a, m | v in k'.votes && a in k'.acks && 0 <= m < a.len
      ensures Informed(k', v, a, m)
    {
      if a in k.acks {
        assert Informed(k, v, a, m);
      }
    }
  }

  lemma LeadLogs(k: Core, q: nat, e: LogEntry)
    requires CanLead(k, q, e)
    ensures LogsOk(Led(k, q, e))
  {
    var reigns' := Led(k, q, e).reigns;
    var log' := k.log[q] + [e];
    forall log: Log | LogOk(k.reigns, log)
      ensures LogOk(reigns', log)
    {
      forall i | 0 < i < |log|
        ensures EntryOk(reigns', log, i)
      {
        assert EntryOk(k.reigns, log, i);
      }
    }
    assert LogOk(reigns', log') by {
      forall i | 0 < i < |log'|
        ensures EntryOk(reigns', log', i)
      {
        if i < |k.log[q]| {
          assert EntryOk(k.reigns, k.log[q], i);
        }
      }
    }
  }

  lemma LeadChoosable(k: Core, q: nat, e: LogEntry)
    requires CanLead(k, q, e)
    ensures forall t0: nat, m: nat :: Choosable(Led(k, q, e), t0, m) && !(t0 == e.term && m == |k.log[q]|) ==>
              Choosable(k, t0, m)
  {
    var k' := Led(k, q, e);
    forall t0: nat, m: nat | Choosable(k', t0, m) && !(t0 == e.term && m == |k.log[q]|)
      ensures Choosable(k, t0, m)
    {
      AckedBefore(k, Ack(q, e.term, |k.log[q]| + 1), t0, m);
      ChoosableBefore(k, k', t0, m);
    }
  }

  /** A new acknowledgement comes from a server that was still able to give it. */
  lemma AckedBefore(k: Core, a: Ack, t: nat, m: nat)
    requires Shape(k) && a.server < |k.term| && k.term[a.server] <= a.term
    ensures forall x :: 0 <= x < |k.term| && Acked(k.acks + {a}, x, t, m) ==> k.term[x] <= t || Acked(k.acks, x, t, m)
  {
    forall x | 0 <= x < |k.term| && Acked(k.acks + {a}, x, t, m)
      ensures k.term[x] <= t || Acked(k.acks, x, t, m)
    {
      var b :| b in k.acks + {a} && b.server == x && b.term == t && m < b.len;
      assert b == a || b in k.acks;
    }
  }

  /** The appended entry can only be chosen while no later leader exists. */
  lemma LeadNewest(k: Core, q: nat, e: LogEntry)
    requires CanLead(k, q, e)
    ensures Choosable(Led(k, q, e), e.term, |k.log[q]|) ==> forall u :: u in k.reigns ==> u <= e.term
  {
    var k' := Led(k, q, e);
    var m := |k.log[q]|;
    if Choosable(k', e.term, m) {
      var qs :| ChoosableBy(k', e.term, m, qs);
      forall u | u in k.reigns
        ensures u <= e.term
      {
        var x := QuorumsMeet(|k.term|, qs, k.reigns[u].voters);
        assert VotedFor(k.votes, x, u, k.reigns[u].leader);
        assert k.term[x] >= u;
        if Acked(k'.acks, x, e.term, m) {
          var b :| b in k'.acks && b.server == x && b.term == e.term && m < b.len;
          assert b !in k.acks;
        }
      }
    }
  }

  /** At most one server can gather a majority of votes in a term. */
  lemma OneWinner(k: Core, t: nat, c: nat, voters: set<nat>)
    requires CoreInv(k) && IsQuorum(|k.term|, voters) && t in k.reigns
    requires forall x :: x in voters ==> VotedFor(k.votes, x, t, c)
    ensures k.reigns[t].leader == c
  {
    var x := QuorumsMeet(|k.term|, voters, k.reigns[t].voters);
    assert VotedFor(k.votes, x, t, c) && VotedFor(k.votes, x, t, k.reigns[t].leader);
  }

  /** The log of a candidate with a majority of votes holds every choosable entry of earlier terms. */
  lemma WinnerComplete(k: Core, q: nat, voters: set<nat>, t0: nat, m: nat)
    requires CoreInv(k) && q < |k.term| && IsQuorum(|k.term|, voters)
    requires k.term[q] !in k.reigns
    requires forall x :: x in voters ==> Vote(x, k.term[q], q, |k.log[q]| - 1, LastTerm(k.log[q])) in k.votes
    requires t0 < k.term[q] && Choosable(k, t0, m)
    ensures SamePrefix(k.log[q], k.reigns[t0].log, m + 1)
  {
    var log := k.log[q];
    var last := |log| - 1;
    var qs :| ChoosableBy(k, t0, m, qs);
    var x := QuorumsMeet(|k.term|, qs, voters);
    var v := Vote(x, k.term[q], q, last, LastTerm(log));
    assert v in k.votes && k.term[x] >= v.term;
    assert Acked(k.acks, x, t0, m);
    var a :| a in k.acks && a.server == x && a.term == t0 && m < a.len;
    assert Informed(k, v, a, m);
    assert last > 0 by {
      assert t0 > 0;
    }
    assert EntryOk(k.reigns, log, last);
    if v.lastTerm > t0 {
      var u := v.lastTerm;
      assert SamePrefix(k.reigns[u].log, k.reigns[t0].log, m + 1);
      assert TermsUpTo(k.reigns[t0].log, t0);
      assert forall i :: 0 <= i <= m ==> k.reigns[u].log[i].term <= t0;
    }
  }

  ghost predicate CanCrown(k: Core, q: nat, voters: set<nat>) {
    && CoreInv(k)
    && q < |k.term|
    && IsQuorum(|k.term|, voters)
    && k.term[q] > 0
    && k.term[q] !in k.reigns
    && forall x :: x in voters ==> Vote(x, k.term[q], q, |k.log[q]| - 1, LastTerm(k.log[q])) in k.votes
  }

  ghost function Crowned(k: Core, q: nat, voters: set<nat>): Core
    requires CanCrown(k, q, voters)
  {
    k.(reigns := k.reigns[k.term[q] := Reign(q, voters, k.log[q])],
       acks := k.acks + {Ack(q, k.term[q], |k.log[q]|)})
  }

  /** A candidate with a majority of votes becomes leader. */
  lemma Crown(k: Core, q: nat, voters: set<nat>)
    requires CanCrown(k, q, voters)
    ensures CoreInv(Crowned(k, q, voters))
  {
    CrownLogs(k, q, voters);
    CrownReigns(k, q, voters);
    CrownChoosable(k, q, voters);
    CrownHeld(k, q, voters);
    CrownComplete(k, q, voters);
    CrownInformed(k, q, voters);
  }

  lemma CrownLogs(k: Core, q: nat, voters: set<nat>)
    requires CanCrown(k, q, voters)
    ensures LogsOk(Crowned(k, q, voters))
  {
    var reigns' := Crowned(k, q, voters).reigns;
    forall log: Log | LogOk(k.reigns, log)
      ensures LogOk(reigns', log)
    {
      forall i | 0 < i < |log|
        ensures EntryOk(reigns', log, i)
      {
        assert EntryOk(k.reigns, log, i);
      }
    }
  }

  lemma CrownReigns(k: Core, q: nat, voters: set<nat>)
    requires CanCrown(k, q, voters)
    ensures ReignsOk(Crowned(k, q, voters))
    ensures AcksOk(Crowned(k, q, voters))
  {
    var k' := Crowned(k, q, voters);
    forall u, x | u in k'.reigns && x in k'.reigns[u].voters
      ensures VotedFor(k'.votes, x, u, k'.reigns[u].leader)
    {
      if u == k.term[q] {
        var v := Vote(x, u, q, |k.log[q]| - 1, LastTerm(k.log[q]));
        assert v in k.votes;
      } else {
        assert VotedFor(k.votes, x, u, k.reigns[u].leader);
      }
    }
  }

  lemma CrownChoosable(k: Core, q: nat, voters: set<nat>)
    requires CanCrown(k, q, voters)
    ensures forall t: nat, m: nat :: Choosable(Crowned(k, q, voters), t, m) ==> t != k.term[q] && Choosable(k, t, m)
  {
    var k' := Crowned(k, q, voters);
    forall t: nat, m: nat | Choosable(k', t, m)
      ensures t != k.term[q] && Choosable(k, t, m)
    {
      assert t == k.term[q] && m > 0 ==> EntryOk(k.reigns, k.log[q], m);
      AckedBefore(k, Ack(q, k.term[q], |k.log[q]|), t, m);
      ChoosableBefore(k, k', t, m);
    }
  }

  lemma CrownHeld(k: Core, q: nat, voters: set<nat>)
    requires CanCrown(k, q, voters) && AcksOk(Crowned(k, q, voters))
    requires forall t: nat, m: nat :: Choosable(Crowned(k, q, voters), t, m) ==> t != k.term[q] && Choosable(k, t, m)
    ensures AcksHeld(Crowned(k, q, voters))
  {
    var k' := Crowned(k, q, voters);
    forall a, m | a in k'.acks && 0 <= m < a.len && Choosable(k', a.term, m)
      ensures SamePrefix(k'.log[a.server], k'.reigns[a.term].log, m + 1)
    {
      assert SamePrefix(k.log[a.server], k.reigns[a.term].log, m + 1);
    }
  }

  lemma CrownComplete(k: Core, q: nat, voters: set<nat>)
    requires CanCrown(k, q, voters)
    requires forall t: nat, m: nat :: Choosable(Crowned(k, q, voters), t, m) ==> t != k.term[q] && Choosable(k, t, m)
    ensures LeadersComplete(Crowned(k, q, voters))
  {
    var k' := Crowned(k, q, voters);
    forall t: nat, u: nat, m: nat | t < u && u in k'.reigns && Choosable(k', t, m)
      ensures SamePrefix(k'.reigns[u].log, k'.reigns[t].log, m + 1)
    {
      if u == k.term[q] {
        WinnerComplete(k, q, voters, t, m);
      } else {
        assert SamePrefix(k.reigns[u].log, k.reigns[t].log, m + 1);
      }
    }
  }

  lemma CrownInformed(k: Core, q: nat, voters: set<nat>)
    requires CanCrown(k, q, voters)
    requires forall t: nat, m: nat :: Choosable(Crowned(k, q, voters), t, m) ==> t != k.term[q] && Choosable(k, t, m)
    ensures VotesInformed(Crowned(k, q, voters))
  {
    var k' := Crowned(k, q, voters);
    forall v, a, m | v in k'.votes && a in k'.acks && 0 <= m < a.len
      ensures Informed(k', v, a, m)
    {
      if a in k.acks {
        assert Informed(k, v, a, m);
      }
    }
  }
}

/** What a fetch of the range `start:*` returns. */
module Fetching {
  import opened Prelude
  import opened MailStore
  import opened Types

  /** Whether the server returns this message, given CHANGEDSINCE (section 3.1.4.1 of RFC 7162). */
  predicate Matches(mb: Mailbox, since: Option<nat>, u: Uid) {
    u in mb.messages && (since.Some? ==> since.value < mb.messages[u].modseq)
  }

  function ContextOf(mb: Mailbox, u: Uid): MessageContext
    requires u in mb.messages
  {
    MessageContext(u, mb.messages[u].content, mb.messages[u].flags)
  }

  /** The highest UID below `n`, or 0. */
  function Highest(mb: Mailbox, n: nat): (u: nat)
    ensures u in mb.messages || u == 0
    ensures forall v :: u < v < n ==> v !in mb.messages
    ensures n > 0 ==> u < n
  {
    if n == 0 then 0
    else if n - 1 in mb.messages then n - 1
    else Highest(mb, n - 1)
  }

  function Collect(mb: Mailbox, since: Option<nat>, lo: nat, hi: nat): seq<MessageContext>
    decreases hi - lo
  {
    if hi <= lo then []
    else (if Matches(mb, since, lo) then [ContextOf(mb, lo)] else []) + Collect(mb, since, lo + 1, hi)
  }

  /** The `*` of a range stands for the last message, so `start:*` always includes it,
      even when `start` is beyond it (section 6.4.8 of RFC 3501). */
  function Fetched(mb: Mailbox, start: nat, since: Option<nat>): seq<MessageContext> {
    Collect(mb, since, Min(start, Highest(mb, mb.uidnext)), mb.uidnext)
  }

  predicate Returned(fs: seq<MessageContext>, u: Uid) {
    exists i :: 0 <= i < |fs| && fs[i].uid == u
  }

  predicate Ascending(fs: seq<MessageContext>) {
    forall i, j :: 0 <= i < j < |fs| ==> fs[i].uid < fs[j].uid
  }

  ghost predicate Listed(f: MessageContext, mb: Mailbox, since: Option<nat>, lo: nat, hi: nat) {
    lo <= f.uid < hi && Matches(mb, since, f.uid) && f == ContextOf(mb, f.uid)
  }

  /** Ascending, within the range, as stored, and nothing that matches left out. */
  ghost predicate IsListing(fs: seq<MessageContext>, mb: Mailbox, since: Option<nat>, lo: nat, hi: nat) {
    && (forall i :: 0 <= i < |fs| ==> Listed(fs[i], mb, since, lo, hi))
    && Ascending(fs)
    && (forall u :: lo <= u < hi && Matches(mb, since, u) ==> Returned(fs, u))
  }

  lemma PrependLists(mb: Mailbox, since: Option<nat>, lo: nat, hi: nat, rest: seq<MessageContext>)
    requires lo < hi && IsListing(rest, mb, since, lo + 1, hi)
    ensures !Matches(mb, since, lo) ==> IsListing(rest, mb, since, lo, hi)
    ensures Matches(mb, since, lo) ==> IsListing([ContextOf(mb, lo)] + rest, mb, since, lo, hi)
  {
    if Matches(mb, since, lo) {
      var fs := [ContextOf(mb, lo)] + rest;
      assert forall i :: 0 < i < |fs| ==> fs[i] == rest[i - 1];
      forall u | lo <= u < hi && Matches(mb, since, u) ensures Returned(fs, u) {
        if u == lo {
          assert fs[0].uid == u;
        } else {
          assert Returned(rest, u);
          var i :| 0 <= i < |rest| && rest[i].uid == u;
          assert fs[i + 1].uid == u;
        }
      }
    }
  }

  lemma {:induction false} CollectLists(mb: Mailbox, since: Option<nat>, lo: nat, hi: nat)
    ensures IsListing(Collect(mb, since, lo, hi), mb, since, lo, hi)
    decreases hi - lo
  {
    if lo < hi {
      CollectLists(mb, since, lo + 1, hi);
      PrependLists(mb, since, lo, hi, Collect(mb, since, lo + 1, hi));
      assert [] + Collect(mb, since, lo + 1, hi) == Collect(mb, since, lo + 1, hi);
    }
  }

  lemma FetchLists(mb: Mailbox, start: nat, since: Option<nat>)
    ensures IsListing(Fetched(mb, start, since), mb, since, Min(start, Highest(mb, mb.uidnext)), mb.uidnext)
  {
    CollectLists(mb, since, Min(start, Highest(mb, mb.uidnext)), mb.uidnext);
  }

  /** A fetch leaves out a message at or above `start` exactly when CHANGEDSINCE is sent
      and that message has not changed since. */
  lemma FetchMissesIff(mb: Mailbox, start: nat, since: Option<nat>, u: Uid)
    requires WellFormed(mb) && u in mb.messages && start <= u
    ensures !Returned(Fetched(mb, start, since), u) <==> since.Some? && mb.messages[u].modseq <= since.value
  {
    FetchLists(mb, start, since);
    var fs := Fetched(mb, start, since);
    if Returned(fs, u) {
      var i :| 0 <= i < |fs| && fs[i].uid == u;
      assert Listed(fs[i], mb, since, Min(start, Highest(mb, mb.uidnext)), mb.uidnext);
    }
  }

  /** A fetch returns a message below `start` exactly when the mailbox has messages but
      none at or above `start`, and then it is the newest one. */
  lemma FetchReachesBackIff(mb: Mailbox, start: nat, since: Option<nat>, u: Uid)
    requires WellFormed(mb) && u < start
    ensures Returned(Fetched(mb, start, since), u)
            <==> u == Highest(mb, mb.uidnext) && Matches(mb, since, u)
  {
    var top := Highest(mb, mb.uidnext);
    var fs := Fetched(mb, start, since);
    FetchLists(mb, start, since);
    if Returned(fs, u) {
      var i :| 0 <= i < |fs| && fs[i].uid == u;
      assert Listed(fs[i], mb, since, Min(start, Highest(mb, mb.uidnext)), mb.uidnext);
      assert top <= u;
    }
  }

  lemma {:induction false} CollectNone(mb: Mailbox, since: Option<nat>, lo: nat, hi: nat)
    requires forall u :: lo <= u < hi ==> !Matches(mb, since, u)
    ensures Collect(mb, since, lo, hi) == []
    decreases hi - lo
  {
    if lo < hi { CollectNone(mb, since, lo + 1, hi); }
  }

  lemma {:induction false} CollectOnly(mb: Mailbox, since: Option<nat>, lo: nat, hi: nat, u: Uid)
    requires lo <= u < hi && Matches(mb, since, u)
    requires forall v :: lo <= v < hi && v != u ==> !Matches(mb, since, v)
    ensures Collect(mb, since, lo, hi) == [ContextOf(mb, u)]
    decreases hi - lo
  {
    if lo == u {
      CollectNone(mb, since, lo + 1, hi);
    } else {
      CollectOnly(mb, since, lo + 1, hi, u);
    }
  }

  /** CHANGEDSINCE the highest modification sequence of the mailbox returns nothing. */
  lemma NothingNewerThanHighest(mb: Mailbox, start: nat)
    requires WellFormed(mb)
    ensures Fetched(mb, start, Some(mb.highestmodseq)) == []
  {
    CollectNone(mb, Some(mb.highestmodseq), Min(start, Highest(mb, mb.uidnext)), mb.uidnext);
  }

  /** ... and after one more delivery, just the message delivered. */
  lemma OnlyTheDelivered(mb: Mailbox, start: nat, content: Content)
    requires WellFormed(mb) && start <= mb.uidnext
    ensures Fetched(Append(mb, content, {}), start, Some(mb.highestmodseq)) == [MessageContext(mb.uidnext, content, {})]
  {
    var mb' := Append(mb, content, {});
    assert Highest(mb', mb'.uidnext) == mb.uidnext;
    CollectOnly(mb', Some(mb.highestmodseq), start, mb'.uidnext, mb.uidnext);
  }

  /** A range that starts beyond the last message returns that message, if it matches. */
  lemma FetchBeyondTheEnd(mb: Mailbox, start: nat, since: Option<nat>)
    requires WellFormed(mb) && Highest(mb, mb.uidnext) < start
    ensures var top := Highest(mb, mb.uidnext);
            Fetched(mb, start, since) == if Matches(mb, since, top) then [ContextOf(mb, top)] else []
  {
    var top := Highest(mb, mb.uidnext);
    if Matches(mb, since, top) {
      CollectOnly(mb, since, top, mb.uidnext, top);
    } else {
      CollectNone(mb, since, top, mb.uidnext);
    }
  }

  /** A fetch of everything is empty exactly when nothing matches. */
  lemma FetchAllEmptyIff(mb: Mailbox, since: Option<nat>)
    requires WellFormed(mb)
    ensures Fetched(mb, 1, since) == [] <==> forall u :: !Matches(mb, since, u)
  {
    var lo := Min(1, Highest(mb, mb.uidnext));
    FetchLists(mb, 1, since);
    var fs := Fetched(mb, 1, since);
    if fs != [] {
      assert Listed(fs[0], mb, since, lo, mb.uidnext);
    } else {
      forall u ensures !Matches(mb, since, u) {
        assert Matches(mb, since, u) ==> Returned(fs, u);
      }
    }
  }

  /** Everything at or above `start`, in order. */
  function Pending(mb: Mailbox, start: nat): seq<MessageContext> {
    Collect(mb, None, start, mb.uidnext)
  }

  lemma {:induction false} CollectAllMatch(mb: Mailbox, since: Option<nat>, lo: nat, hi: nat)
    requires forall u | lo <= u < hi && u in mb.messages :: Matches(mb, since, u)
    ensures Collect(mb, since, lo, hi) == Collect(mb, None, lo, hi)
    decreases hi - lo
  {
    if lo < hi { CollectAllMatch(mb, since, lo + 1, hi); }
  }

  lemma PendingListed(mb: Mailbox, start: nat)
    requires WellFormed(mb)
    ensures Ascending(Pending(mb, start))
    ensures forall u | u in mb.messages && start <= u :: Returned(Pending(mb, start), u)
    ensures forall i :: 0 <= i < |Pending(mb, start)| ==>
              Pending(mb, start)[i].uid in mb.messages && start <= Pending(mb, start)[i].uid
  {
    CollectLists(mb, None, start, mb.uidnext);
    var fs := Pending(mb, start);
    assert forall i :: 0 <= i < |fs| ==> Listed(fs[i], mb, None, start, mb.uidnext);
  }

  /** When everything pending matches, a fetch returns just that, or reaches back. */
  lemma FetchOfMatching(mb: Mailbox, start: nat, since: Option<nat>)
    requires WellFormed(mb) && Pending(mb, start) != []
    requires forall u | u in mb.messages && start <= u :: Matches(mb, since, u)
    ensures Fetched(mb, start, since) == Pending(mb, start)
  {
    PendingListed(mb, start);
    CollectAllMatch(mb, since, start, mb.uidnext);
    assert Pending(mb, start)[0].uid in mb.messages;
    assert start <= Highest(mb, mb.uidnext);
  }

  /** The first `n` of the messages pending are all of them exactly when there are no more. */
  lemma CutIsCompleteIff(mb: Mailbox, start: nat, n: nat)
    requires WellFormed(mb)
    ensures (forall u | u in mb.messages && start <= u :: Returned(Truncate(Pending(mb, start), n), u))
            <==> |Pending(mb, start)| <= n
  {
    var fs := Pending(mb, start);
    PendingListed(mb, start);
    if n < |fs| {
      assert fs[n].uid in mb.messages && start <= fs[n].uid;
      assert !Returned(fs[..n], fs[n].uid);
    }
  }

  lemma CutReturnsLess(fs: seq<MessageContext>, n: nat, u: Uid)
    requires Returned(Truncate(fs, n), u)
    ensures Returned(fs, u)
  {
    var i :| 0 <= i < |Truncate(fs, n)| && Truncate(fs, n)[i].uid == u;
    assert fs[i].uid == u;
  }
}

/** The pull-request watcher: which review items its polls surface, and how often it reruns failed jobs. */
module PrWatch {

  datatype Kind = IssueComment | ReviewComment | Review

  /** An item is known by its kind and its id. */
  datatype Key = Key(kind: Kind, id: string)

  /** An item as the API lists it: `review` is the review that a review comment belongs to, `pending` tells of
      a review that it is not published yet, and `trusted` whether the watcher listens to the author. */
  datatype Item = Item(id: string, trusted: bool, review: string, pending: bool)

  /** What one poll is given. */
  datatype Poll = Poll(issues: seq<Item>, comments: seq<Item>, reviews: seq<Item>)

  /** The state of the last review listed with that id. */
  predicate LastPending(reviews: seq<Item>, id: string) {
    if reviews == [] then false
    else if reviews[|reviews|-1].id == id then reviews[|reviews|-1].pending
    else LastPending(reviews[..|reviews|-1], id)
  }

  predicate ReviewPending(p: Poll, id: string) { id != "" && LastPending(p.reviews, id) }

  /** That is the one behind which no other review has that id. */
  lemma {:induction false} LastPendingExactlyWhen(reviews: seq<Item>, id: string)
    ensures LastPending(reviews, id) <==>
              exists i :: 0 <= i < |reviews| && reviews[i].id == id && reviews[i].pending &&
                          forall j :: i < j < |reviews| ==> reviews[j].id != id
  {
    if reviews != [] {
      var p, last := reviews[..|reviews|-1], reviews[|reviews|-1];
      LastPendingExactlyWhen(p, id);
      assert forall i :: 0 <= i < |p| ==> reviews[i] == p[i];
      if last.id == id {
        assert reviews[|p|] == last;
      }
    }
  }

  /** A review comment belongs to a pending review. */
  predicate CommentPending(p: Poll, id: string) {
    id != "" && exists c :: c in p.comments && c.id == id && ReviewPending(p, c.review)
  }

  /** The poll shows the item as pending. */
  predicate Pending(p: Poll, k: Key) {
    match k.kind
    case IssueComment => false
    case ReviewComment => CommentPending(p, k.id)
    case Review => ReviewPending(p, k.id)
  }

  /** The poll lists the item as published, and by an author that the watcher listens to. */
  predicate Offered(p: Poll, k: Key) {
    k.id != "" &&
    match k.kind
    case IssueComment => exists x :: x in p.issues && x.id == k.id && x.trusted
    case ReviewComment => exists x :: x in p.comments && x.id == k.id && x.trusted && !ReviewPending(p, x.review)
    case Review => exists x :: x in p.reviews && x.id == k.id && x.trusted && !x.pending
  }

  // ----- one poll --------------------------------------------------------------------------------------------------

  /** What a poll does: it forgets what is pending again, and surfaces, once each, what is offered and not seen. */
  ghost predicate PollStep(seen: set<Key>, p: Poll, surfaced: seq<Key>, after: set<Key>) {
    && (forall k :: k in surfaced <==> Offered(p, k) && (k !in seen || Pending(p, k)))
    && (forall i, j :: 0 <= i < j < |surfaced| ==> surfaced[i] != surfaced[j])
    && (forall k :: k in after <==> Offered(p, k) || (k in seen && !Pending(p, k)))
  }

  // ----- whole runs ------------------------------------------------------------------------------------------------

  /** A run of polls: `seens[j]` is what is seen before poll `j`. */
  ghost predicate IsRun(polls: seq<Poll>, surfaced: seq<seq<Key>>, seens: seq<set<Key>>) {
    && |surfaced| == |polls| && |seens| == |polls| + 1
    && forall j :: 0 <= j < |polls| ==> PollStep(seens[j], polls[j], surfaced[j], seens[j + 1])
  }

  /** The item was not pending in polls `i` to `j`, `j` left out. */
  ghost predicate NeverPending(polls: seq<Poll>, k: Key, i: int, j: int)
    requires 0 <= i <= j <= |polls|
  {
    forall m :: i <= m < j ==> !Pending(polls[m], k)
  }

  /** Before poll `j` the item was offered, or seen from the beginning, and since then it has not been pending. */
  ghost predicate Known(polls: seq<Poll>, first: set<Key>, k: Key, j: nat, until: nat)
    requires j <= until <= |polls|
  {
    (k in first && NeverPending(polls, k, 0, until)) ||
    exists i :: 0 <= i < j && Offered(polls[i], k) && NeverPending(polls, k, i + 1, until)
  }

  lemma {:induction false} SeenIsKnown(polls: seq<Poll>, surfaced: seq<seq<Key>>, seens: seq<set<Key>>, k: Key, j: nat)
    requires IsRun(polls, surfaced, seens) && j <= |polls|
    ensures k in seens[j] <==> Known(polls, seens[0], k, j, j)
  {
    if j > 0 {
      SeenIsKnown(polls, surfaced, seens, k, j - 1);
      assert PollStep(seens[j - 1], polls[j - 1], surfaced[j - 1], seens[j]);
      KnownGrows(polls, seens[0], k, j);
    }
  }

  lemma KnownGrows(polls: seq<Poll>, first: set<Key>, k: Key, j: nat)
    requires 0 < j <= |polls|
    ensures Known(polls, first, k, j, j) <==>
            Offered(polls[j - 1], k) || (Known(polls, first, k, j - 1, j - 1) && !Pending(polls[j - 1], k))
  {
    KnownUntil(polls, first, k, j - 1, j - 1);
    if Offered(polls[j - 1], k) {
      assert NeverPending(polls, k, j, j);
    }
    if Known(polls, first, k, j, j) && !Offered(polls[j - 1], k) {
      assert Known(polls, first, k, j - 1, j);
    }
  }

  lemma KnownUntil(polls: seq<Poll>, first: set<Key>, k: Key, j: nat, until: nat)
    requires j <= until < |polls|
    ensures Known(polls, first, k, j, until + 1) <==> Known(polls, first, k, j, until) && !Pending(polls[until], k)
  {
    forall i | 0 <= i <= until + 1
      ensures i <= until ==>
                (NeverPending(polls, k, i, until + 1) <==>
                 NeverPending(polls, k, i, until) && !Pending(polls[until], k))
    {
    }
  }

  /** A poll surfaces exactly the items it is offered that were not offered before, or that have been pending since
      they were last offered; and each of them once. */
  lemma SurfacedExactlyWhen(polls: seq<Poll>, surfaced: seq<seq<Key>>, seens: seq<set<Key>>, k: Key, j: nat)
    requires IsRun(polls, surfaced, seens) && j < |polls|
    ensures k in surfaced[j] <==> Offered(polls[j], k) && !Known(polls, seens[0], k, j, j + 1)
    ensures forall a, b :: 0 <= a < b < |surfaced[j]| ==> surfaced[j][a] != surfaced[j][b]
  {
    SeenIsKnown(polls, surfaced, seens, k, j);
    KnownUntil(polls, seens[0], k, j, j);
    assert PollStep(seens[j], polls[j], surfaced[j], seens[j + 1]);
  }

  /** An item that is offered for the first time is surfaced; surfaced again, it has been pending in between. */
  lemma SurfacedOnceUnlessPending(polls: seq<Poll>, surfaced: seq<seq<Key>>, seens: seq<set<Key>>, k: Key,
                                  i: nat, j: nat)
    requires IsRun(polls, surfaced, seens) && i < j < |polls|
    requires k in surfaced[i] && k in surfaced[j]
    ensures exists m :: i < m <= j && Pending(polls[m], k)
  {
    SurfacedExactlyWhen(polls, surfaced, seens, k, i);
    SurfacedExactlyWhen(polls, surfaced, seens, k, j);
    assert !NeverPending(polls, k, i + 1, j + 1);
  }

  lemma FirstOfferIsSurfaced(polls: seq<Poll>, surfaced: seq<seq<Key>>, seens: seq<set<Key>>, k: Key, j: nat)
    requires IsRun(polls, surfaced, seens) && j < |polls| && seens[0] == {}
    requires Offered(polls[j], k) && forall i :: 0 <= i < j ==> !Offered(polls[i], k)
    ensures k in surfaced[j]
  {
    SurfacedExactlyWhen(polls, surfaced, seens, k, j);
  }

  // ----- reruns ----------------------------------------------------------------------------------------------------

  /** What one call to rerun failed jobs is given. */
  datatype Snapshot = Snapshot(sha: string, closed: bool, failed: int, allTerminal: bool, runs: seq<string>)

  /** The guards in front of the reruns, apart from the budget. */
  predicate MayRerun(s: Snapshot) {
    !s.closed && s.failed > 0 && s.runs != [] && s.allTerminal
  }

  function Count(counts: map<string, int>, sha: string): int {
    if sha in counts then counts[sha] else 0
  }

  /** The ids of the failed runs that have one. */
  function Ids(runs: seq<string>): (r: seq<string>)
    ensures forall x :: x in r <==> x in runs && x != ""
  {
    if runs == [] then [] else (if runs[0] == "" then [] else [runs[0]]) + Ids(runs[1..])
  }

  /** In their order, and as often as they are listed. */
  lemma {:induction false} IdsOfParts(a: seq<string>, b: seq<string>, id: string)
    ensures Ids(a + b) == Ids(a) + Ids(b)
    ensures Ids([id]) == if id == "" then [] else [id]
  {
    assert [id][1..] == [];
    if a == [] {
      assert a + b == b;
    } else {
      assert (a + b)[1..] == a[1..] + b;
      IdsOfParts(a[1..], b, id);
    }
  }

  function RetryStep(counts: map<string, int>, s: Snapshot, budget: int): map<string, int> {
    if MayRerun(s) && Count(counts, s.sha) < budget && Ids(s.runs) != [] then counts[s.sha := Count(counts, s.sha) + 1]
    else counts
  }

  function Retries(counts: map<string, int>, calls: seq<Snapshot>, budget: int): map<string, int> {
    if calls == [] then counts
    else RetryStep(Retries(counts, calls[..|calls|-1], budget), calls[|calls|-1], budget)
  }

  /** How many of the calls could rerun something at that commit. */
  function Chances(calls: seq<Snapshot>, sha: string): nat {
    if calls == [] then 0 else
    var s := calls[|calls|-1];
    Chances(calls[..|calls|-1], sha) + if s.sha == sha && MayRerun(s) && Ids(s.runs) != [] then 1 else 0
  }

  /** After any calls, the count of a commit is what it was plus one for every chance, cut off at the budget. */
  lemma {:induction false} RetriesAreTheChancesUpToTheBudget(counts: map<string, int>, calls: seq<Snapshot>,
                                                             budget: int, sha: string)
    ensures var c, n := Count(counts, sha), Chances(calls, sha);
            Count(Retries(counts, calls, budget), sha) ==
            if c >= budget then c else if c + n <= budget then c + n else budget
  {
    if calls != [] {
      RetriesAreTheChancesUpToTheBudget(counts, calls[..|calls|-1], budget, sha);
    }
  }

  // ----- the watcher's state ---------------------------------------------------------------------------------------

  /** An item after normalization. */
  datatype Entry = Entry(key: Key, trusted: bool)

  method NormalizeIssueComments(items: seq<Item>) returns (out: seq<Entry>)
    ensures forall e :: e in out <==>
              e.key.kind == IssueComment && exists x :: x in items && e == Entry(Key(IssueComment, x.id), x.trusted)
  {
    out := [];
    for n := 0 to |items|
      invariant forall e :: e in out <==>
                  e.key.kind == IssueComment &&
                  exists x :: x in items[..n] && e == Entry(Key(IssueComment, x.id), x.trusted)
    {
      assert items[..n + 1] == items[..n] + [items[n]];
      out := out + [Entry(Key(IssueComment, items[n].id), items[n].trusted)];
    }
    assert items[..|items|] == items;
  }

  /** Comments of a pending review are left out. */
  method NormalizeReviewComments(p: Poll) returns (out: seq<Entry>)
    ensures forall e :: e in out <==>
              e.key.kind == ReviewComment &&
              exists x :: x in p.comments && !ReviewPending(p, x.review) &&
                          e == Entry(Key(ReviewComment, x.id), x.trusted)
  {
    out := [];
    var items := p.comments;
    for n := 0 to |items|
      invariant forall e :: e in out <==>
                  e.key.kind == ReviewComment &&
                  exists x :: x in items[..n] && !ReviewPending(p, x.review) &&
                              e == Entry(Key(ReviewComment, x.id), x.trusted)
    {
      assert items[..n + 1] == items[..n] + [items[n]];
      if !ReviewPending(p, items[n].review) {
        out := out + [Entry(Key(ReviewComment, items[n].id), items[n].trusted)];
      }
    }
    assert items[..|items|] == items;
  }

  /** Pending reviews are left out. */
  method NormalizeReviews(items: seq<Item>) returns (out: seq<Entry>)
    ensures forall e :: e in out <==>
              e.key.kind == Review && exists x :: x in items && !x.pending && e == Entry(Key(Review, x.id), x.trusted)
  {
    out := [];
    for n := 0 to |items|
      invariant forall e :: e in out <==>
                  e.key.kind == Review &&
                  exists x :: x in items[..n] && !x.pending && e == Entry(Key(Review, x.id), x.trusted)
    {
      assert items[..n + 1] == items[..n] + [items[n]];
      if !items[n].pending {
        out := out + [Entry(Key(Review, items[n].id), items[n].trusted)];
      }
    }
    assert items[..|items|] == items;
  }

  /** The entries are those that the poll offers, apart from untrusted and nameless ones. */
  ghost predicate AreOffers(all: seq<Entry>, p: Poll) {
    forall k :: Offered(p, k) <==> k.id != "" && Entry(k, true) in all
  }

  method AllItems(p: Poll) returns (all: seq<Entry>)
    ensures AreOffers(all, p)
  {
    var issues := NormalizeIssueComments(p.issues);
    var comments := NormalizeReviewComments(p);
    var reviews := NormalizeReviews(p.reviews);
    all := issues + comments + reviews;
    forall k ensures Offered(p, k) <==> k.id != "" && Entry(k, true) in all {
      var e := Entry(k, true);
      assert e in all <==> e in issues || e in comments || e in reviews;
    }
  }

  /** The keys of the trusted entries. */
  function Accepted(all: seq<Entry>): set<Key> {
    set e | e in all && e.trusted && e.key.id != "" :: e.key
  }

  lemma AcceptedGrows(all: seq<Entry>, e: Entry)
    ensures Accepted(all + [e]) == Accepted(all) + if e.trusted && e.key.id != "" then {e.key} else {}
  {
  }

  class Watcher {
    var seenIssues: set<string>
    var seenComments: set<string>
    var seenReviews: set<string>
    var retries: map<string, int>

    constructor ()
      ensures Seen() == {} && retries == map[]
    {
      seenIssues, seenComments, seenReviews, retries := {}, {}, {}, map[];
    }

    ghost function Seen(): (r: set<Key>)
      reads this
      ensures forall k :: k in r <==> IsSeen(k)
    {
      (set i | i in seenIssues :: Key(IssueComment, i)) + (set i | i in seenComments :: Key(ReviewComment, i))
      + (set i | i in seenReviews :: Key(Review, i))
    }

    predicate IsSeen(k: Key)
      reads this
    {
      match k.kind
      case IssueComment => k.id in seenIssues
      case ReviewComment => k.id in seenComments
      case Review => k.id in seenReviews
    }

    method MarkSeen(k: Key)
      modifies `seenIssues, `seenComments, `seenReviews
      ensures Seen() == old(Seen()) + {k}
    {
      match k.kind
      case IssueComment => seenIssues := seenIssues + {k.id};
      case ReviewComment => seenComments := seenComments + {k.id};
      case Review => seenReviews := seenReviews + {k.id};
    }

    method ForgetPending(p: Poll)
      modifies `seenComments, `seenReviews
      ensures Seen() == set k | k in old(Seen()) && !Pending(p, k)
    {
      seenComments := set i | i in seenComments && !CommentPending(p, i);
      seenReviews := set i | i in seenReviews && !ReviewPending(p, i);
    }

    /** Everything that is offered is gone through in the listed order; what was not seen is surfaced. */
    method FetchNewReviewItems(p: Poll) returns (surfaced: seq<Key>)
      modifies `seenIssues, `seenComments, `seenReviews
      ensures PollStep(old(Seen()), p, surfaced, Seen())
    {
      var all := AllItems(p);
      ForgetPending(p);
      ghost var kept := Seen();
      surfaced := [];
      for n := 0 to |all|
        invariant Seen() == kept + Accepted(all[..n])
        invariant forall k :: k in surfaced <==> k in Accepted(all[..n]) && k !in kept
        invariant forall i, j :: 0 <= i < j < |surfaced| ==> surfaced[i] != surfaced[j]
      {
        var e := all[n];
        assert all[..n + 1] == all[..n] + [e];
        AcceptedGrows(all[..n], e);
        if e.key.id != "" && e.trusted && !IsSeen(e.key) {
          surfaced := surfaced + [e.key];
          MarkSeen(e.key);
        }
      }
      assert all[..|all|] == all;
      assert forall k :: k in Accepted(all) <==> Offered(p, k);
    }

    /** Rerun the failed runs if the budget of the commit allows it, and count that. */
    method RetryFailedNow(s: Snapshot, budget: int) returns (rerun: seq<string>)
      modifies `retries
      ensures retries == RetryStep(old(retries), s, budget)
      ensures rerun == if !s.closed && s.failed > 0 && s.runs != [] && s.allTerminal &&
                          (if s.sha in old(retries) then old(retries)[s.sha] else 0) < budget
                       then Ids(s.runs) else []
      ensures retries == if rerun == [] then old(retries)
                         else old(retries)[s.sha := 1 + if s.sha in old(retries) then old(retries)[s.sha] else 0]
    {
      rerun := [];
      if s.closed || s.failed <= 0 || s.runs == [] || !s.allTerminal || Count(retries, s.sha) >= budget {
        return;
      }
      assert s.runs[0..] == s.runs;
      for n := 0 to |s.runs|
        invariant rerun + Ids(s.runs[n..]) == Ids(s.runs)
      {
        assert s.runs[n..][0] == s.runs[n] && s.runs[n..][1..] == s.runs[n + 1..];
        if s.runs[n] != "" {
          rerun := rerun + [s.runs[n]];
        }
      }
      if rerun != [] {
        retries := retries[s.sha := Count(retries, s.sha) + 1];
      }
    }
  }
}

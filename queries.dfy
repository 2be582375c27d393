/**
 * The read side of the poll views: the index listing and the detail
 * lookup, each a query over the store (filter, exclude, order, slice).
 */
module PollQueries {
  import opened Wrappers
  import opened PollModels

  /** The index page shows at most this many questions. */
  const IndexLimit: nat := 5

  function Min(a: nat, b: nat): nat {
    if a <= b then a else b
  }

  /** Published by `now`, and not yet voted on from `ip`. */
  predicate Listable(q: Question, voters: seq<Voter>, ip: Ip, now: Time) {
    q.pubDate <= now && Voter(q.id, ip) !in voters
  }

  /** The questions the index may show to `ip`, in store order. */
  function Listables(questions: seq<Question>, voters: seq<Voter>, ip: Ip, now: Time): (r: seq<Question>)
    ensures multiset(r) <= multiset(questions)
    ensures forall q :: q in r <==> q in questions && Listable(q, voters, ip, now)
  {
    if questions == [] then []
    else
      var rest := Listables(questions[1..], voters, ip, now);
      assert questions == [questions[0]] + questions[1..];
      if Listable(questions[0], voters, ip, now) then [questions[0]] + rest else rest
  }

  /** Ordered by publication date, newest first. */
  predicate NewestFirst(s: seq<Question>) {
    forall i, j :: 0 <= i < j < |s| ==> s[i].pubDate >= s[j].pubDate
  }

  function InsertNewestFirst(q: Question, s: seq<Question>): (r: seq<Question>)
    requires NewestFirst(s)
    ensures NewestFirst(r)
    ensures multiset(r) == multiset(s) + multiset{q}
  {
    if s == [] || q.pubDate >= s[0].pubDate then
      PrependNewest(q, s);
      [q] + s
    else
      var rest := InsertNewestFirst(q, s[1..]);
      assert s == [s[0]] + s[1..];
      HeadIsNewest(q, s, rest);
      PrependNewest(s[0], rest);
      [s[0]] + rest
  }

  /** Inserting an older question into the tail keeps the head the newest. */
  lemma HeadIsNewest(q: Question, s: seq<Question>, rest: seq<Question>)
    requires NewestFirst(s) && s != [] && q.pubDate < s[0].pubDate
    requires multiset(rest) == multiset(s[1..]) + multiset{q}
    ensures forall x :: x in rest ==> x.pubDate <= s[0].pubDate
  {
    forall x | x in rest ensures x.pubDate <= s[0].pubDate {
      assert x in multiset(rest);
      if x != q {
        assert x in multiset(s[1..]);
        var j :| 0 <= j < |s[1..]| && s[1..][j] == x;
        assert s[j + 1] == x;
      }
    }
  }

  lemma PrependNewest(x: Question, s: seq<Question>)
    requires NewestFirst(s)
    requires forall y :: y in s ==> y.pubDate <= x.pubDate
    ensures NewestFirst([x] + s)
  {
    forall i, j | 0 <= i < j < |[x] + s| ensures ([x] + s)[i].pubDate >= ([x] + s)[j].pubDate {
      if i == 0 {
        assert ([x] + s)[j] in s;
      }
    }
  }

  /** `order_by('-pub_date')`: a permutation of `s`, newest first. */
  function OrderByNewest(s: seq<Question>): (r: seq<Question>)
    ensures NewestFirst(r)
    ensures multiset(r) == multiset(s)
  {
    if s == [] then []
    else
      assert s == [s[0]] + s[1..];
      InsertNewestFirst(s[0], OrderByNewest(s[1..]))
  }

  /**
   * What the index view hands to its template. Without a client IP the
   * view reaches `return` with its result name never bound.
   */
  datatype IndexOutcome = Listed(questions: seq<Question>) | UnboundResult

  /**
   * The index listing for a requester at `ip`: the newest (at most five)
   * published questions the requester has not voted on, newest first.
   */
  function Index(questions: seq<Question>, voters: seq<Voter>, ip: Option<Ip>, now: Time): (r: IndexOutcome)
    ensures r.UnboundResult? <==> ip.None?
    ensures r.Listed? ==>
      var candidates := Listables(questions, voters, ip.value, now);
      && |r.questions| == Min(IndexLimit, |candidates|)
      && NewestFirst(r.questions)
      && multiset(r.questions) <= multiset(candidates)
      && (forall q, p :: q in candidates && q !in r.questions && p in r.questions ==> q.pubDate <= p.pubDate)
  {
    match ip
    case None => UnboundResult
    case Some(addr) =>
      var candidates := Listables(questions, voters, addr, now);
      var ordered := OrderByNewest(candidates);
      var k := Min(IndexLimit, |ordered|);
      TakeNewest(candidates, ordered, k);
      var shown := ordered[..k];
      Listed(shown)
  }

  /**
   * The first `k` of a newest-first permutation of `candidates`: none of
   * the candidates left out is newer than any of those taken.
   */
  lemma TakeNewest(candidates: seq<Question>, ordered: seq<Question>, k: nat)
    requires NewestFirst(ordered) && multiset(ordered) == multiset(candidates) && k <= |ordered|
    ensures NewestFirst(ordered[..k])
    ensures multiset(ordered[..k]) <= multiset(candidates)
    ensures forall q, p :: q in candidates && q !in ordered[..k] && p in ordered[..k] ==> q.pubDate <= p.pubDate
  {
    var shown := ordered[..k];
    assert ordered == shown + ordered[k..];
    assert multiset(ordered) == multiset(shown) + multiset(ordered[k..]);
    forall q, p | q in candidates && q !in shown && p in shown ensures q.pubDate <= p.pubDate {
      assert q in multiset(ordered);
      assert q in ordered[k..];
      var j :| k <= j < |ordered| && ordered[j] == q;
      var i :| 0 <= i < k && shown[i] == p;
      assert ordered[i] == p;
    }
  }

  /**
   * Every listed question is a stored question, published by `now`, that
   * the requester has not voted on; there are at most five of them.
   */
  lemma IndexShowsOnlyListable(questions: seq<Question>, voters: seq<Voter>, ip: Ip, now: Time)
    ensures Index(questions, voters, Some(ip), now).Listed?
    ensures var shown := Index(questions, voters, Some(ip), now).questions;
      && |shown| <= IndexLimit
      && forall q :: q in shown ==> q in questions && q.pubDate <= now && Voter(q.id, ip) !in voters
  {
    var shown := Index(questions, voters, Some(ip), now).questions;
    var candidates := Listables(questions, voters, ip, now);
    forall q | q in shown ensures q in questions && q.pubDate <= now && Voter(q.id, ip) !in voters {
      assert q in multiset(shown);
      assert q in multiset(candidates);
    }
  }

  /**
   * When at most five questions qualify, the listing shows all of them.
   */
  lemma IndexShowsAllWhenFew(questions: seq<Question>, voters: seq<Voter>, ip: Ip, now: Time)
    requires |Listables(questions, voters, ip, now)| <= IndexLimit
    ensures multiset(Index(questions, voters, Some(ip), now).questions) == multiset(Listables(questions, voters, ip, now))
  {
    var shown := Index(questions, voters, Some(ip), now).questions;
    var candidates := Listables(questions, voters, ip, now);
    assert |multiset(shown)| == |multiset(candidates)|;
    MultisetSubsetOfSameSize(multiset(shown), multiset(candidates));
  }

  lemma {:induction false} MultisetSubsetOfSameSize<T>(a: multiset<T>, b: multiset<T>)
    requires a <= b && |a| == |b|
    ensures a == b
  {
    if a != multiset{} {
      var x :| x in a;
      MultisetSubsetOfSameSize(a - multiset{x}, b - multiset{x});
    }
  }

  /** The questions visible to anyone at `now`: `filter(pub_date__lte=now)`. */
  function Published(questions: seq<Question>, now: Time): (r: seq<Question>)
    ensures forall q :: q in r <==> q in questions && q.pubDate <= now
  {
    if questions == [] then []
    else
      var rest := Published(questions[1..], now);
      assert questions == [questions[0]] + questions[1..];
      if questions[0].pubDate <= now then [questions[0]] + rest else rest
  }

  /** The stored question whose primary key is `id`, if any. */
  function Lookup(questions: seq<Question>, id: nat): (r: Option<Question>)
    ensures r.Some? ==> r.value in questions && r.value.id == id
    ensures r.None? <==> forall q :: q in questions ==> q.id != id
  {
    if questions == [] then None
    else if questions[0].id == id then Some(questions[0])
    else
      assert questions == [questions[0]] + questions[1..];
      Lookup(questions[1..], id)
  }

  /**
   * The detail page's object: question `id` among the published ones;
   * `None` is the 404 for an unknown or not yet published question.
   */
  function Detail(questions: seq<Question>, id: nat, now: Time): (r: Option<Question>)
    ensures r.Some? ==> r.value in questions && r.value.id == id && r.value.pubDate <= now
    ensures r.None? <==> forall q :: q in questions && q.id == id ==> now < q.pubDate
  {
    Lookup(Published(questions, now), id)
  }
}

/** Reading all resources of an endpoint, page by page: section 3.4.2.4 of RFC 7644. */
module Pagination {
  import opened Wrappers

  /** A failed request, another code than 200, something that is no list response, or one. */
  datatype Answer =
    | Failed
    | Refused(code: int)
    | Malformed
    | ListResponse(totalResults: int, resources: Option<seq<string>>)

  datatype Error = GetFailed | UnexpectedCode(code: int) | NotAListResponse | NoResources

  // ---------- the addresses ----------

  function Decimal(n: nat): string {
    var digit := ['0' + (n % 10) as char];
    if n < 10 then digit else Decimal(n / 10) + digit
  }

  function Url(url: string, startIndex: nat): string {
    if startIndex != 1 then url + "?startIndex=" + Decimal(startIndex) else url
  }

  // ---------- how a server reads them ----------

  predicate IsDigit(c: char) {
    '0' <= c <= '9'
  }

  /** Reads digits from the left, `n` being what has been read so far. */
  function ReadDigits(s: string, n: nat): Option<nat> {
    if s == "" then Some(n)
    else if IsDigit(s[0]) then ReadDigits(s[1..], 10 * n + (s[0] as int - '0' as int))
    else None
  }

  /** The index that an address asks for: 1 without a query, else the number given. */
  function IndexIn(url: string, address: string): Option<nat> {
    var query := url + "?startIndex=";
    if address == url then Some(1)
    else if query < address then ReadDigits(address[|query|..], 0)
    else None
  }

  lemma {:induction false} ReadOneMore(s: string, c: char, n: nat)
    requires IsDigit(c) && ReadDigits(s, n).Some?
    ensures ReadDigits(s + [c], n) == Some(10 * ReadDigits(s, n).value + (c as int - '0' as int))
    decreases |s|
  {
    if s == "" {
      assert s + [c] == [c] && [c][1..] == "";
    } else {
      assert (s + [c])[1..] == s[1..] + [c];
      ReadOneMore(s[1..], c, 10 * n + (s[0] as int - '0' as int));
    }
  }

  /** A number is written in decimal digits, without leading zeros. */
  lemma {:induction false} DecimalRead(n: nat)
    ensures Decimal(n) != "" && ReadDigits(Decimal(n), 0) == Some(n)
    ensures n >= 1 ==> Decimal(n)[0] != '0'
  {
    hide ReadDigits;
    var c := '0' + (n % 10) as char;
    if n < 10 {
      ReadNothing();
      ReadOneMore("", c, 0);
      assert "" + [c] == [c];
    } else {
      DecimalRead(n / 10);
      ReadOneMore(Decimal(n / 10), c, 0);
    }
  }

  lemma ReadNothing()
    ensures ReadDigits("", 0) == Some(0)
  {
  }

  /** The index on the wire is the one that is meant; the first page is asked for without a query. */
  lemma UrlRead(url: string, i: nat)
    requires i >= 1
    ensures IndexIn(url, Url(url, i)) == Some(i) && Url(url, 1) == url
  {
    hide Decimal, ReadDigits;
    var query, d := url + "?startIndex=", Decimal(i);
    DecimalRead(i);
    assert |query| > |url|;
    assert (query + d)[|query|..] == d && query <= query + d;
  }

  // ---------- what a query does ----------

  /** How the nth request is answered; from the request numbered `patience` on, all fail. */
  datatype Remote = Remote(answer: (nat, string) -> Answer, patience: nat)

  function Answered(r: Remote, n: nat, url: string): Answer {
    if n < r.patience then r.answer(n, url) else Failed
  }

  datatype Outcome = Outcome(resources: seq<string>, asked: seq<string>, error: Option<Error>)

  function Query(r: Remote, url: string, startIndex: nat, resources: seq<string>, asked: seq<string>): Outcome
    requires |asked| <= r.patience
    decreases r.patience - |asked|
  {
    var address := Url(url, startIndex);
    var all := asked + [address];
    match Answered(r, |asked|, address)
    case Failed => Outcome(resources, all, Some(GetFailed))
    case Refused(code) => Outcome(resources, all, Some(UnexpectedCode(code)))
    case Malformed => Outcome(resources, all, Some(NotAListResponse))
    case ListResponse(total, page) =>
      if total == 0 then Outcome(resources, all, None)
      else if page == None then Outcome(resources, all, Some(NoResources))
      else if |resources + page.value| < total then
        Query(r, url, startIndex + |page.value|, resources + page.value, all)
      else Outcome(resources + page.value, all, None)
  }

  /** Asking for all resources: from the first one on, with nothing collected yet. */
  function QueryAll(r: Remote, url: string): Outcome {
    Query(r, url, 1, [], [])
  }

  class Getter {
    const remote: Remote
    var asked: seq<string>

    constructor (remote: Remote)
      ensures this.remote == remote && asked == []
    {
      this.remote := remote;
      asked := [];
    }

    method Get(url: string) returns (answer: Answer)
      modifies this
      ensures asked == old(asked) + [url] && answer == Answered(remote, |old(asked)|, url)
    {
      answer := if |asked| < remote.patience then remote.answer(|asked|, url) else Failed;
      asked := asked + [url];
    }
  }

  /** The caller's list, which is appended to in place. */
  class Resources {
    var list: seq<string>

    constructor ()
      ensures list == []
    {
      list := [];
    }
  }

  method QueryImpl(url: string, resources: Resources, getter: Getter, startIndex: nat) returns (error: Option<Error>)
    requires |getter.asked| <= getter.remote.patience
    modifies resources, getter
    ensures Outcome(resources.list, getter.asked, error)
         == Query(getter.remote, url, startIndex, old(resources.list), old(getter.asked))
    decreases getter.remote.patience - |getter.asked|
  {
    var urlComplete := url;
    if startIndex != 1 { urlComplete := urlComplete + "?startIndex=" + Decimal(startIndex); }
    var answer := getter.Get(urlComplete);
    match answer
    case Failed => return Some(GetFailed);
    case Refused(code) => return Some(UnexpectedCode(code));
    case Malformed => return Some(NotAListResponse);
    case ListResponse(totalResults, page) =>
      if totalResults == 0 { return None; }
      if page == None { return Some(NoResources); }
      ghost var before := resources.list;
      var pageSize := 0;
      for i := 0 to |page.value|
        invariant pageSize == i && resources.list == before + page.value[..i]
        invariant getter.asked == old(getter.asked) + [urlComplete]
      {
        assert page.value[..i + 1] == page.value[..i] + [page.value[i]];
        resources.list := resources.list + [page.value[i]];
        pageSize := pageSize + 1;
      }
      assert page.value[..|page.value|] == page.value;
      if |resources.list| < totalResults {
        error := QueryImpl(url, resources, getter, startIndex + pageSize);
      } else {
        return None;
      }
  }

  // ---------- any server ----------

  /** The request is for what comes after so many resources, between the two bounds. */
  predicate AsksBetween(url: string, low: nat, high: nat, address: string) {
    exists k | low <= k <= high :: AsksAfter(url, k, address)
  }

  predicate AsksAfter(url: string, k: nat, address: string) {
    IndexIn(url, address) == Some(k + 1)
  }

  lemma AsksWider(url: string, low: nat, lower: nat, high: nat, address: string)
    requires AsksBetween(url, low, high, address) && lower <= low
    ensures AsksBetween(url, lower, high, address)
  {
    var k :| low <= k <= high && AsksAfter(url, k, address);
    assert lower <= k;
  }

  /** Whatever is answered, each request starts just after what has been received before it. */
  lemma {:induction false} AsksForTheNext(r: Remote, url: string, startIndex: nat, resources: seq<string>,
                                          asked: seq<string>)
    requires |asked| <= r.patience && startIndex == |resources| + 1
    ensures var o := Query(r, url, startIndex, resources, asked);
      asked <= o.asked && resources <= o.resources && |asked| < |o.asked| <= r.patience + 1
      && IndexIn(url, o.asked[|asked|]) == Some(|resources| + 1)
      && forall n | |asked| <= n < |o.asked| :: AsksBetween(url, |resources|, |o.resources|, o.asked[n])
    decreases r.patience - |asked|
  {
    hide AsksBetween, Url, IndexIn;
    var o := Query(r, url, startIndex, resources, asked);
    var all := asked + [Url(url, startIndex)];
    var answer := Answered(r, |asked|, Url(url, startIndex));
    if answer.ListResponse? && answer.totalResults != 0 && answer.resources.Some?
       && |resources + answer.resources.value| < answer.totalResults {
      var page := answer.resources.value;
      AsksForTheNext(r, url, startIndex + |page|, resources + page, all);
      assert all <= o.asked;
      forall n | |asked| < n < |o.asked| ensures AsksBetween(url, |resources|, |o.resources|, o.asked[n]) {
        AsksWider(url, |resources + page|, |resources|, |o.resources|, o.asked[n]);
      }
    }
    assert o.asked[|asked|] == all[|asked|];
    UrlRead(url, startIndex);
    AsksFirst(url, |resources|, |o.resources|);
  }

  lemma AsksFirst(url: string, low: nat, high: nat)
    requires low <= high
    ensures AsksBetween(url, low, high, Url(url, low + 1))
  {
    hide Url, IndexIn;
    UrlRead(url, low + 1);
    assert AsksAfter(url, low, Url(url, low + 1));
  }

  // ---------- a stable server ----------

  /** The pages are consecutive pieces of one list: a request is answered with the page at the index that the
      server reads in its address. `size` says how many resources the page from an index has. */
  ghost predicate Stable(r: Remote, url: string, all: seq<string>, size: nat -> nat) {
    && (forall i | 1 <= i <= |all| :: size(i) <= |all| - (i - 1))
    && (forall n, address | IndexIn(url, address).Some? ::
          PageAt(r.answer(n, address), all, size, IndexIn(url, address).value))
  }

  /** The answer for an index; with nothing to list, any first page will do that says so. */
  ghost predicate PageAt(answer: Answer, all: seq<string>, size: nat -> nat, i: nat)
    requires 1 <= i <= |all| ==> size(i) <= |all| - (i - 1)
  {
    && (all == [] && i == 1 ==> answer.ListResponse? && answer.totalResults == 0)
    && (1 <= i <= |all| ==> answer == ListResponse(|all|, Some(all[i - 1..i - 1 + size(i)])))
  }

  /** No page that is asked for, from an index on, is empty. */
  predicate NoEmptyPage(total: nat, size: nat -> nat, i: nat)
    decreases total - i
  {
    i > total || (size(i) >= 1 && (i + size(i) > total || NoEmptyPage(total, size, i + size(i))))
  }

  lemma {:induction false} PagesFrom(r: Remote, url: string, all: seq<string>, size: nat -> nat, i: nat,
                                     asked: seq<string>)
    requires Stable(r, url, all, size) && 1 <= i <= |all|
    requires |asked| < i && r.patience >= |all|
    ensures var o := Query(r, url, i, all[..i - 1], asked);
      if NoEmptyPage(|all|, size, i) then o.resources == all && o.error == None && |o.asked| <= |all|
      else o.error == Some(GetFailed) && |o.asked| == r.patience + 1
    decreases |all| - i
  {
    hide Url, Stable;
    StablePage(r, url, all, size, |asked|, i);
    var address, page := Url(url, i), all[i - 1..i - 1 + size(i)];
    assert all[..i - 1] + page == all[..i - 1 + size(i)];
    if size(i) == 0 {
      assert all[..i - 1] + page == all[..i - 1];
      Stuck(r, url, all, size, i, asked);
    } else if i + size(i) <= |all| {
      PagesFrom(r, url, all, size, i + size(i), asked + [address]);
    } else {
      assert all[..i - 1 + size(i)] == all;
    }
  }

  lemma StablePage(r: Remote, url: string, all: seq<string>, size: nat -> nat, n: nat, i: nat)
    requires Stable(r, url, all, size) && 1 <= i <= |all|
    ensures i - 1 + size(i) <= |all|
    ensures r.answer(n, Url(url, i)) == ListResponse(|all|, Some(all[i - 1..i - 1 + size(i)]))
  {
    hide Url, IndexIn;
    UrlRead(url, i);
    assert PageAt(r.answer(n, Url(url, i)), all, size, i);
  }

  /** An empty page is asked for again and again. */
  lemma {:induction false} Stuck(r: Remote, url: string, all: seq<string>, size: nat -> nat, i: nat, asked: seq<string>)
    requires Stable(r, url, all, size) && 1 <= i <= |all| && size(i) == 0 && |asked| <= r.patience
    ensures var o := Query(r, url, i, all[..i - 1], asked);
      o.error == Some(GetFailed) && |o.asked| == r.patience + 1
    decreases r.patience - |asked|
  {
    hide Url, Stable;
    if |asked| < r.patience {
      StablePage(r, url, all, size, |asked|, i);
      assert all[..i - 1] + [] == all[..i - 1];
      Stuck(r, url, all, size, i, asked + [Url(url, i)]);
    }
  }

  function Max(a: nat, b: nat): nat {
    if a < b then b else a
  }

  /** All resources in order, with no more requests than resources. */
  predicate Collected(o: Outcome, all: seq<string>) {
    o == Outcome(all, o.asked, None) && |o.asked| <= Max(1, |all|)
  }

  /** Requests are sent as long as they are answered. */
  predicate AsksOn(o: Outcome, r: Remote) {
    o.error == Some(GetFailed) && |o.asked| == r.patience + 1
  }

  /** A stable server that answers `max(1, n)` requests for its n resources: if and only if none of the pages
      asked for is empty, exactly the resources are collected, in order, with no more requests than that. */
  lemma CollectsAllIff(r: Remote, url: string, all: seq<string>, size: nat -> nat)
    requires Stable(r, url, all, size) && r.patience >= Max(1, |all|)
    ensures NoEmptyPage(|all|, size, 1) ==> Collected(QueryAll(r, url), all)
    ensures !NoEmptyPage(|all|, size, 1) ==> AsksOn(QueryAll(r, url), r)
  {
    hide Url, Query;
    if all == [] {
      NothingThere(r, url, all, size);
    } else {
      assert all[..0] == [];
      PagesFrom(r, url, all, size, 1, []);
    }
  }

  lemma NothingThere(r: Remote, url: string, all: seq<string>, size: nat -> nat)
    requires Stable(r, url, all, size) && r.patience >= 1 && all == []
    ensures QueryAll(r, url) == Outcome([], [Url(url, 1)], None)
  {
    hide Url, IndexIn;
    UrlRead(url, 1);
    assert PageAt(r.answer(0, Url(url, 1)), all, size, 1);
  }

  // ---------- what makes a query fail ----------

  /** All answers but the last are pages; the last one decides. A request that failed, another code than 200, a
      body that is no list response, or one without resources makes the query an error; otherwise the query ends
      because nothing is there or all is received. */
  lemma {:induction false} LastAnswerDecides(r: Remote, url: string, startIndex: nat, resources: seq<string>,
                                             asked: seq<string>)
    requires |asked| <= r.patience
    ensures var o := Query(r, url, startIndex, resources, asked);
      |asked| < |o.asked| && asked <= o.asked
      && (forall n | |asked| <= n < |o.asked| - 1 :: IsPage(Answered(r, n, o.asked[n])))
      && Decides(Answered(r, |o.asked| - 1, o.asked[|o.asked| - 1]), o)
    decreases r.patience - |asked|
  {
    hide Url;
    var address := Url(url, startIndex);
    var all, answer := asked + [address], Answered(r, |asked|, address);
    var o := Query(r, url, startIndex, resources, asked);
    if IsPage(answer) && |resources + answer.resources.value| < answer.totalResults {
      LastAnswerDecides(r, url, startIndex + |answer.resources.value|, resources + answer.resources.value, all);
      assert o.asked[|asked|] == all[|asked|] == address;
      assert asked <= all <= o.asked;
    }
  }

  predicate IsPage(a: Answer) {
    a.ListResponse? && a.totalResults != 0 && a.resources.Some?
  }

  predicate Decides(a: Answer, o: Outcome) {
    && (a.Failed? ==> o.error == Some(GetFailed))
    && (a.Refused? ==> o.error == Some(UnexpectedCode(a.code)))
    && (a.Malformed? ==> o.error == Some(NotAListResponse))
    && (a.ListResponse? && a.totalResults != 0 && a.resources.None? ==> o.error == Some(NoResources))
    && (a.ListResponse? && a.totalResults == 0 ==> o.error == None)
    && (IsPage(a) ==> o.error == None && |o.resources| >= a.totalResults)
  }
}

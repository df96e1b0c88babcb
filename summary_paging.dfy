/**
 * `fetchAllNormalTxs`: the summary route reads a wallet's normal transactions
 * page by page (5000 per page, ascending) until a page comes back short.
 * Each page is one `etherscanV2` call, given here by its outcome after retries.
 */
module SummaryPaging {
  import opened Wrappers
  import opened Ledger

  const PageSize: nat := 5000

  /** The `result` field of one page: a JSON array of transactions, or anything else. */
  datatype Page = Rows(txs: seq<NormalTx>) | NotRows

  /** `ensureArray(res?.result)`: a non-array result reads as an empty batch. */
  function Batch(p: Page): (b: seq<NormalTx>)
    ensures p.NotRows? ==> b == []
  {
    if p.Rows? then p.txs else []
  }

  /** Paging stops at page `p`: the call failed, or its batch is short. */
  predicate EndsAt(fetchPage: nat -> Result<Page, Option<string>>, p: nat) {
    fetchPage(p).Failure? || |Batch(fetchPage(p).value)| < PageSize
  }

  /** Prefix `out` to a successful outcome; a failure stays as it is. */
  function Prepend(out: seq<NormalTx>, r: Result<seq<NormalTx>, Option<string>>): Result<seq<NormalTx>, Option<string>> {
    match r
    case Success(rest) => Success(out + rest)
    case Failure(e) => Failure(e)
  }

  lemma PrependTwice(out: seq<NormalTx>, batch: seq<NormalTx>, r: Result<seq<NormalTx>, Option<string>>)
    ensures Prepend(out, Prepend(batch, r)) == Prepend(out + batch, r)
  {
    if r.Success? {
      assert out + (batch + r.value) == (out + batch) + r.value;
    }
  }

  /**
   * The outcome of reading pages `page`, `page + 1`, ... up to the first page
   * that ends the paging; `last` is a page known to end it.
   */
  function PagesFrom(fetchPage: nat -> Result<Page, Option<string>>, page: nat, last: nat): Result<seq<NormalTx>, Option<string>>
    requires 1 <= page <= last && EndsAt(fetchPage, last)
    decreases last - page
  {
    match fetchPage(page)
    case Failure(e) => Failure(e)
    case Success(body) =>
      if |Batch(body)| < PageSize then Success(Batch(body))
      else Prepend(Batch(body), PagesFrom(fetchPage, page + 1, last))
  }

  /** The pages before the first ending page are all full, and the result is their concatenation. */
  lemma {:induction false} PagesFromFull(fetchPage: nat -> Result<Page, Option<string>>, page: nat, last: nat)
    requires 1 <= page <= last && EndsAt(fetchPage, last)
    ensures PagesFrom(fetchPage, page, last).Success? ==>
      |PagesFrom(fetchPage, page, last).value| >= |Batch(fetchPage(page).value)|
    ensures PagesFrom(fetchPage, page, last).Failure? ==>
      exists p :: page <= p <= last && fetchPage(p).Failure?
    ensures fetchPage(page).Failure? ==> PagesFrom(fetchPage, page, last) == Failure(fetchPage(page).error)
    decreases last - page
  {
    if fetchPage(page).Success? && |Batch(fetchPage(page).value)| >= PageSize {
      PagesFromFull(fetchPage, page + 1, last);
    }
  }

  /** The result does not depend on which ending page is used to bound the search. */
  lemma {:induction false} PagesFromBound(fetchPage: nat -> Result<Page, Option<string>>, page: nat, last1: nat, last2: nat)
    requires 1 <= page <= last1 && EndsAt(fetchPage, last1)
    requires page <= last2 && EndsAt(fetchPage, last2)
    ensures PagesFrom(fetchPage, page, last1) == PagesFrom(fetchPage, page, last2)
    decreases last1 - page
  {
    if fetchPage(page).Success? && |Batch(fetchPage(page).value)| >= PageSize {
      PagesFromBound(fetchPage, page + 1, last1, last2);
    }
  }

  /**
   * `fetchAllNormalTxs(address, "asc", 5000)` with the 150 ms pause left out:
   * a failed page call fails the whole fetch; otherwise the batches are
   * concatenated up to and including the first short one.
   */
  method FetchAllNormalTxs(fetchPage: nat -> Result<Page, Option<string>>, ghost last: nat)
    returns (r: Result<seq<NormalTx>, Option<string>>)
    requires 1 <= last && EndsAt(fetchPage, last)
    ensures r == PagesFrom(fetchPage, 1, last)
  {
    var page := 1;
    var out: seq<NormalTx> := [];
    if PagesFrom(fetchPage, 1, last).Success? {
      assert [] + PagesFrom(fetchPage, 1, last).value == PagesFrom(fetchPage, 1, last).value;
    }
    while true
      invariant 1 <= page <= last
      invariant PagesFrom(fetchPage, 1, last) == Prepend(out, PagesFrom(fetchPage, page, last))
      decreases last - page
    {
      var res := fetchPage(page);
      if res.Failure? {
        return Failure(res.error);
      }
      var batch := Batch(res.value);
      if |batch| < PageSize {
        return Success(out + batch);
      }
      assert PagesFrom(fetchPage, page, last) == Prepend(batch, PagesFrom(fetchPage, page + 1, last));
      PrependTwice(out, batch, PagesFrom(fetchPage, page + 1, last));
      out := out + batch;
      page := page + 1;
    }
  }
}

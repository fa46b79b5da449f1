/** All symbols of the engine at once: requests for different symbols interleave, and each
    symbol's book sees exactly the run of its own orders. */
module Venue {
  import opened Matching

  datatype Request = Request(symbol: string, order: Submission)

  /** The book of a symbol; one never seen is created empty. */
  function BookOf(books: map<string, Book>, symbol: string): Book {
    if symbol in books then books[symbol] else EMPTY_BOOK
  }

  /** One request: find or create the symbol's book, then match against it. */
  ghost predicate Step(books: map<string, Book>, r: Request, books': map<string, Book>) {
    exists b :: Matched(BookOf(books, r.symbol), r.order, b) && books' == books[r.symbol := b]
  }

  ghost predicate StepAt(states: seq<map<string, Book>>, requests: seq<Request>, i: nat)
    requires |states| == |requests| + 1 && i < |requests|
  {
    Step(states[i], requests[i], states[i + 1])
  }

  ghost predicate VenueRun(states: seq<map<string, Book>>, requests: seq<Request>) {
    && |states| == |requests| + 1
    && states[0] == map[]
    && forall i: nat :: i < |requests| ==> StepAt(states, requests, i)
  }

  /** The orders of one symbol among the first n requests, in order. */
  ghost function OrdersOf(requests: seq<Request>, symbol: string, n: nat): seq<Submission>
    requires n <= |requests|
  {
    if n == 0 then []
    else if requests[n - 1].symbol == symbol then
      OrdersOf(requests, symbol, n - 1) + [requests[n - 1].order]
    else
      OrdersOf(requests, symbol, n - 1)
  }

  /** The books one symbol went through: empty, then one after each request of its own. */
  ghost function BooksOf(states: seq<map<string, Book>>, requests: seq<Request>, symbol: string, n: nat)
    : seq<Book>
    requires |states| == |requests| + 1 && n <= |requests|
  {
    if n == 0 then [EMPTY_BOOK]
    else if requests[n - 1].symbol == symbol then
      BooksOf(states, requests, symbol, n - 1) + [BookOf(states[n], symbol)]
    else
      BooksOf(states, requests, symbol, n - 1)
  }

  /** A request works on its own symbol's book and leaves every other book as it was. */
  lemma StepTouchesOneBook(books: map<string, Book>, r: Request, books': map<string, Book>, symbol: string)
    requires Step(books, r, books')
    ensures if symbol == r.symbol then Matched(BookOf(books, symbol), r.order, BookOf(books', symbol))
            else BookOf(books', symbol) == BookOf(books, symbol)
  {
    var b :| Matched(BookOf(books, r.symbol), r.order, b) && books' == books[r.symbol := b];
  }

  /** A run of these orders goes through these books and ends in b. */
  ghost predicate RunTo(books: seq<Book>, orders: seq<Submission>, b: Book) {
    Run(books, orders) && books[|orders|] == b
  }

  lemma RunExtends(states: seq<Book>, orders: seq<Submission>, before: Book, o: Submission, b: Book)
    requires RunTo(states, orders, before) && Matched(before, o, b)
    ensures RunTo(states + [b], orders + [o], b)
  {
    var ss, os := states + [b], orders + [o];
    forall i | 0 <= i < |os| ensures Matched(ss[i], os[i], ss[i + 1]) {
      if i < |orders| { assert orders[i] == os[i]; }
    }
  }

  lemma OwnNext(states: seq<map<string, Book>>, requests: seq<Request>, symbol: string, k: nat, n: nat)
    requires |states| == |requests| + 1 && n == k + 1 <= |requests| && requests[k].symbol == symbol
    ensures BooksOf(states, requests, symbol, n) == BooksOf(states, requests, symbol, k) + [BookOf(states[n], symbol)]
    ensures OrdersOf(requests, symbol, n) == OrdersOf(requests, symbol, k) + [requests[k].order]
  {
  }

  lemma OtherNext(states: seq<map<string, Book>>, requests: seq<Request>, symbol: string, k: nat, n: nat)
    requires |states| == |requests| + 1 && n == k + 1 <= |requests| && requests[k].symbol != symbol
    ensures BooksOf(states, requests, symbol, n) == BooksOf(states, requests, symbol, k)
    ensures OrdersOf(requests, symbol, n) == OrdersOf(requests, symbol, k)
  {
  }

  lemma StepOf(states: seq<map<string, Book>>, requests: seq<Request>, k: nat, n: nat)
    requires VenueRun(states, requests) && n == k + 1 <= |requests|
    ensures Step(states[k], requests[k], states[n])
  {
    assert StepAt(states, requests, k);
  }

  lemma NextRun(states: seq<map<string, Book>>, requests: seq<Request>, symbol: string, k: nat, n: nat,
                books: seq<Book>, orders: seq<Submission>)
    returns (books': seq<Book>, orders': seq<Submission>)
    requires |states| == |requests| + 1 && n == k + 1 <= |requests| && Step(states[k], requests[k], states[n])
    requires books == BooksOf(states, requests, symbol, k) && orders == OrdersOf(requests, symbol, k)
    requires RunTo(books, orders, BookOf(states[k], symbol))
    ensures books' == BooksOf(states, requests, symbol, n) && orders' == OrdersOf(requests, symbol, n)
    ensures RunTo(books', orders', BookOf(states[n], symbol))
  {
    var b := BookOf(states[n], symbol);
    StepTouchesOneBook(states[k], requests[k], states[n], symbol);
    if requests[k].symbol == symbol {
      OwnNext(states, requests, symbol, k, n);
      RunExtends(books, orders, BookOf(states[k], symbol), requests[k].order, b);
      books', orders' := books + [b], orders + [requests[k].order];
    } else {
      OtherNext(states, requests, symbol, k, n);
      books', orders' := books, orders;
    }
  }

  /** Whatever the interleaving, each symbol's book goes through a run of its own orders
      alone, so every theorem about runs holds of it; other symbols' requests leave it
      unchanged. */
  lemma {:induction false} SymbolsAreIndependent(states: seq<map<string, Book>>, requests: seq<Request>,
                                                symbol: string, n: nat)
    returns (books: seq<Book>, orders: seq<Submission>)
    requires VenueRun(states, requests) && n <= |requests|
    ensures books == BooksOf(states, requests, symbol, n) && orders == OrdersOf(requests, symbol, n)
    ensures RunTo(books, orders, BookOf(states[n], symbol))
  {
    if n == 0 {
      books, orders := [EMPTY_BOOK], [];
    } else {
      books, orders := SymbolsAreIndependent(states, requests, symbol, n - 1);
      StepOf(states, requests, n - 1, n);
      books, orders := NextRun(states, requests, symbol, n - 1, n, books, orders);
    }
  }

  /** Hence every book of the venue keeps the invariant and conserves quantity. */
  lemma VenueKeepsBooks(states: seq<map<string, Book>>, requests: seq<Request>, symbol: string, n: nat)
    requires VenueRun(states, requests) && n <= |requests|
    ensures BookOk(BookOf(states[n], symbol))
    ensures var orders := OrdersOf(requests, symbol, n);
            && var b := BookOf(states[n], symbol);
            && Submitted(orders, |orders|, true) - Quantity(b.bids)
               == Submitted(orders, |orders|, false) - Quantity(b.asks)
  {
    var books, orders := SymbolsAreIndependent(states, requests, symbol, n);
    RunKeepsBook(books, orders, |orders|);
    RunConserves(books, orders, |orders|);
  }
}

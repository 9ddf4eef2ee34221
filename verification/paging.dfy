/**
 * The /api/channel handler (cmd/discord/main.go): parse the `page` query
 * parameter as a Go int, fetch one more row than a page holds, and return a
 * page of messages with the cursor of the next page (0 when there is none).
 *
 * The SQL query is the `Query` parameter: given the channel id, the row
 * limit and the offset, it yields the rows in the query's order or fails.
 */
module Paging {
  import opened Optional

  const PageSize: int := 20

  /** The row limit handed to the query: one row more than a page, to learn whether another page exists. */
  const Limit: int := PageSize + 1

  const MinInt64: int := -0x8000_0000_0000_0000
  const MaxInt64: int := 0x7FFF_FFFF_FFFF_FFFF

  const InvalidPage: string := "Invalid page number"
  const FetchFailed: string := "Failed to fetch messages"
  const ReadFailed: string := "Failed to fetch channels"

  /** Two's-complement wrap-around of a Go `int` on a 64-bit platform. */
  function Wrap64(x: int): (r: int)
    ensures MinInt64 <= r <= MaxInt64
    ensures (r - x) % 0x1_0000_0000_0000_0000 == 0
    ensures MinInt64 <= x <= MaxInt64 ==> r == x
  {
    (x - MinInt64) % 0x1_0000_0000_0000_0000 + MinInt64
  }

  // ---------------------------------------------------------------------
  // strconv.Atoi and its inverse strconv.Itoa.
  // ---------------------------------------------------------------------

  predicate IsDigit(c: char) { '0' <= c <= '9' }

  predicate AllDigits(s: string) { forall i :: 0 <= i < |s| ==> IsDigit(s[i]) }

  function DigitValue(c: char): (d: nat)
    requires IsDigit(c)
    ensures d < 10
  {
    (c as int) - ('0' as int)
  }

  function DigitChar(d: nat): (c: char)
    requires d < 10
    ensures IsDigit(c) && DigitValue(c) == d
  {
    (('0' as int) + d) as char
  }

  /** The value of a decimal numeral, leading zeros allowed. */
  function Value(s: string): nat
    requires AllDigits(s)
    decreases |s|
  {
    if |s| == 0 then 0 else Value(s[..|s| - 1]) * 10 + DigitValue(s[|s| - 1])
  }

  /** The optional sign and the digits after it. */
  function Unsigned(s: string): string
  {
    if |s| > 0 && (s[0] == '+' || s[0] == '-') then s[1..] else s
  }

  /** The numeral's form: an optional sign followed by at least one decimal digit. */
  predicate Numeral(s: string)
  {
    |Unsigned(s)| > 0 && AllDigits(Unsigned(s))
  }

  /** The value of a numeral, negated after a minus sign. */
  function Signed(s: string): int
    requires Numeral(s)
  {
    if s[0] == '-' then -(Value(Unsigned(s)) as int) else Value(Unsigned(s))
  }

  /** The decimal numeral of a natural number, with no leading zero. */
  function Digits(n: nat): (s: string)
    ensures |s| > 0 && AllDigits(s)
    decreases n
  {
    if n < 10 then [DigitChar(n)] else Digits(n / 10) + [DigitChar(n % 10)]
  }

  lemma {:induction false} DigitsValue(n: nat)
    ensures Value(Digits(n)) == n
    decreases n
  {
    var s := Digits(n);
    if n < 10 {
      assert s[..0] == [];
    } else {
      DigitsValue(n / 10);
      assert s[..|s| - 1] == Digits(n / 10);
    }
  }

  /** A digit string without its leading zeros, keeping at least its last digit. */
  function Significant(d: string): (r: string)
    ensures |d| > 0 ==> |r| > 0
    ensures AllDigits(d) ==> AllDigits(r)
    decreases |d|
  {
    if |d| > 1 && d[0] == '0' then Significant(d[1..]) else d
  }

  function Abs(n: int): nat
  {
    if n < 0 then -n else n
  }

  /**
   * `s` is a way of writing `n` that strconv accepts: an optional sign, then
   * digits that, once their leading zeros are dropped, are the digits strconv.Itoa
   * renders for the magnitude; a minus sign only in front of a value that is
   * not positive, and a non-zero value negative exactly when it has one.
   */
  predicate Spells(s: string, n: int)
  {
    && Numeral(s)
    && Significant(Unsigned(s)) == Digits(Abs(n))
    && (n < 0 ==> s[0] == '-')
    && (n > 0 ==> s[0] != '-')
  }

  /** A leading zero does not change a numeral's value. */
  lemma {:induction false} ValueLeadingZero(e: string)
    requires AllDigits(e)
    ensures Value(['0'] + e) == Value(e)
    decreases |e|
  {
    var d := ['0'] + e;
    if |e| == 0 {
      assert d[..0] == [];
    } else {
      var e' := e[..|e| - 1];
      assert d[..|d| - 1] == ['0'] + e';
      ValueLeadingZero(e');
    }
  }

  /** A numeral of value zero, with more than one digit, starts with a zero. */
  lemma {:induction false} ValuePositive(d: string)
    requires AllDigits(d) && |d| > 0 && d[0] != '0'
    ensures Value(d) > 0
    decreases |d|
  {
    if |d| > 1 {
      ValuePositive(d[..|d| - 1]);
    }
  }

  /** A numeral without a leading zero is the rendering of its value. */
  lemma {:induction false} DigitsOfValue(d: string)
    requires AllDigits(d) && |d| > 0 && (|d| == 1 || d[0] != '0')
    ensures Digits(Value(d)) == d
    decreases |d|
  {
    if |d| == 1 {
      assert d[..0] == [];
      assert DigitChar(DigitValue(d[0])) == d[0];
    } else {
      var p := d[..|d| - 1];
      ValuePositive(p);
      DigitsOfValue(p);
      var v := Value(d);
      assert v / 10 == Value(p) && v % 10 == DigitValue(d[|d| - 1]);
      assert DigitChar(DigitValue(d[|d| - 1])) == d[|d| - 1];
      assert d == p + [d[|d| - 1]];
    }
  }

  /** Dropping leading zeros leaves the rendering of the numeral's value. */
  lemma {:induction false} SignificantDigits(d: string)
    requires AllDigits(d) && |d| > 0
    ensures Significant(d) == Digits(Value(d))
    decreases |d|
  {
    if |d| > 1 && d[0] == '0' {
      assert d == ['0'] + d[1..];
      ValueLeadingZero(d[1..]);
      SignificantDigits(d[1..]);
    } else {
      DigitsOfValue(d);
    }
  }

  /** Every numeral spells its signed value, and nothing else. */
  lemma NumeralSpells(s: string, n: int)
    requires Numeral(s)
    ensures Spells(s, Signed(s))
    ensures Spells(s, n) ==> n == Signed(s)
  {
    SignificantDigits(Unsigned(s));
    if Spells(s, n) {
      DigitsValue(Abs(n));
      DigitsValue(Value(Unsigned(s)));
    }
  }

  /**
   * strconv.Atoi: an optional sign and at least one decimal digit, nothing
   * else (no spaces, no underscores), and a value that fits a 64-bit int.
   * Stated against the renderer: `s` parses to `n` exactly when it spells a
   * 64-bit `n`.
   */
  function Atoi(s: string): (r: Option<int>)
    ensures r.Some? ==> MinInt64 <= r.value <= MaxInt64 && Spells(s, r.value)
    ensures forall n :: MinInt64 <= n <= MaxInt64 && Spells(s, n) ==> r == Some(n)
  {
    if !Numeral(s) then None
    else
      assert forall n :: Spells(s, n) ==> n == Signed(s) by {
        forall n | Spells(s, n) ensures n == Signed(s) { NumeralSpells(s, n); }
      }
      NumeralSpells(s, Signed(s));
      if MinInt64 <= Signed(s) <= MaxInt64 then Some(Signed(s))
      else None
  }

  /** strconv.Itoa: a minus sign for negative values, then the digits of the magnitude. */
  function Itoa(n: int): (s: string)
    ensures Spells(s, n)
    ensures n >= 0 ==> s == Digits(n)
  {
    var d := Digits(Abs(n));
    DigitsValue(Abs(n));
    SignificantDigits(d);
    if n < 0 then
      assert Unsigned("-" + d) == d;
      "-" + d
    else
      assert Unsigned(d) == d by { assert IsDigit(d[0]); }
      d
  }

  /** Every 64-bit int survives rendering and parsing. */
  lemma AtoiItoa(n: int)
    requires MinInt64 <= n <= MaxInt64
    ensures Atoi(Itoa(n)) == Some(n)
  {
  }

  /** Page numbers the handler refuses: no digits, stray characters, or a value past the 64-bit range. */
  lemma AtoiRejects()
    ensures Atoi("") == None && Atoi("+") == None && Atoi("-") == None
    ensures Atoi(" 1") == None && Atoi("1.5") == None && Atoi("1_0") == None
  {
    assert !IsDigit(Unsigned(" 1")[0]);
    assert !IsDigit(Unsigned("1.5")[1]);
    assert !IsDigit(Unsigned("1_0")[1]);
  }

  /** Leading zeros and an explicit plus sign are accepted. */
  lemma AtoiAccepts()
    ensures Atoi("007") == Some(7) && Atoi("+2") == Some(2) && Atoi("-3") == Some(-3)
  {
    assert Unsigned("007") == "007";
    assert "007"[..2] == "00" && "00"[..1] == "0" && "0"[..0] == "";
    assert Value("007") == 7;
    assert Unsigned("+2") == "2" && "2"[..0] == "" && Value("2") == 2;
    assert Unsigned("-3") == "3" && "3"[..0] == "" && Value("3") == 3;
  }

  /** One past the largest int is refused. */
  lemma AtoiOverflow()
    ensures Atoi(Digits(MaxInt64 + 1)) == None
  {
    DigitsValue(MaxInt64 + 1);
  }

  // ---------------------------------------------------------------------
  // The handler.
  // ---------------------------------------------------------------------

  /** The offset of a page: `(page - 1) * pageSize` in wrapping 64-bit arithmetic. */
  function Offset(page: int): (o: int)
    ensures MinInt64 <= o <= MaxInt64
    ensures (o - (page - 1) * PageSize) % 0x1_0000_0000_0000_0000 == 0
    ensures MinInt64 <= page - 1 && MinInt64 <= (page - 1) * PageSize <= MaxInt64 ==> o == (page - 1) * PageSize
  {
    Wrap64(Wrap64(page - 1) * PageSize)
  }

  /** The cursor of the page after `page`: `page + 1`, wrapping. */
  function NextPage(page: int): (n: int)
    ensures MinInt64 <= page < MaxInt64 ==> n == page + 1
    ensures page == MaxInt64 ==> n == MinInt64
  {
    Wrap64(page + 1)
  }

  /** What the query yields: rows in order, an error from the query, or an error while reading rows. */
  datatype Fetch<Row> = Fetched(rows: seq<Row>) | QueryError | ScanError

  /** The handler's reply: nothing but the content type (not a GET), an HTTP error, or a page. */
  datatype Reply<Row> = Headers | Failure(status: int, text: string) | Page(data: seq<Row>, nextCursor: int)

  /** The page built from the fetched rows. */
  function Respond<Row>(rows: seq<Row>, page: int): (r: Reply<Row>)
    ensures r.Page? && r.data <= rows
    ensures |rows| <= Limit ==> |r.data| <= PageSize
    ensures |rows| == Limit ==> |r.data| == PageSize && r.nextCursor == NextPage(page)
    ensures |rows| != Limit ==> r.data == rows && r.nextCursor == 0
  {
    if |rows| == Limit then Page(rows[..PageSize], NextPage(page)) else Page(rows, 0)
  }

  /** The /api/channel handler for one request. */
  function Handle<Row>(isGet: bool, channelId: string, page: string, query: (string, int, int) -> Fetch<Row>): (r: Reply<Row>)
    ensures !isGet <==> r.Headers?
    ensures isGet && Atoi(page).None? <==> r == Failure(400, InvalidPage)
    ensures r.Failure? ==> r.status == 400 || r.status == 500
    ensures r.Page? ==> Atoi(page).Some? && query(channelId, Limit, Offset(Atoi(page).value)).Fetched?
    ensures r.Page? ==> var rows := query(channelId, Limit, Offset(Atoi(page).value)).rows;
      && r.data <= rows
      && (|rows| <= Limit ==> |r.data| <= PageSize)
      && (r.nextCursor != 0 ==> |rows| == Limit && r.nextCursor == NextPage(Atoi(page).value))
    ensures isGet && Atoi(page).Some? ==> var p := Atoi(page).value;
      match query(channelId, Limit, Offset(p))
      case QueryError => r == Failure(500, FetchFailed)
      case ScanError => r == Failure(500, ReadFailed)
      case Fetched(rows) => r == Respond(rows, p)
  {
    if !isGet then Headers
    else match Atoi(page)
      case None => Failure(400, InvalidPage)
      case Some(p) =>
        match query(channelId, Limit, Offset(p))
        case QueryError => Failure(500, FetchFailed)
        case ScanError => Failure(500, ReadFailed)
        case Fetched(rows) => Respond(rows, p)
  }

  /** A page number that does not parse is refused before any query: the reply does not depend on the database. */
  lemma BadPageNeverQueries<Row>(channelId: string, page: string, q1: (string, int, int) -> Fetch<Row>, q2: (string, int, int) -> Fetch<Row>)
    requires Atoi(page).None?
    ensures Handle(true, channelId, page, q1) == Handle(true, channelId, page, q2) == Failure(400, InvalidPage)
  {
  }

  /** Pages from 1 up ask for consecutive windows of twenty rows. */
  lemma PositiveOffset(page: int)
    requires 1 <= page <= MaxInt64 / PageSize
    ensures Offset(page) == (page - 1) * PageSize >= 0
  {
  }

  /** Page 0 and negative pages are accepted and turn into a negative offset. */
  lemma NonPositivePageNegativeOffset(page: int)
    requires MinInt64 / PageSize + 1 < page <= 0
    ensures Offset(page) == (page - 1) * PageSize < 0
  {
  }

  /** The largest page wraps: its offset is -40 and its next cursor is the smallest int. */
  lemma LargestPageWraps()
    ensures Offset(MaxInt64) == -40
    ensures NextPage(MaxInt64) == MinInt64
  {
  }

  // ---------------------------------------------------------------------
  // Following the cursor.
  // ---------------------------------------------------------------------

  /** A database that honours LIMIT and OFFSET over a channel's messages in query order. */
  function Honest<Row>(table: seq<Row>): (string, int, int) -> Fetch<Row>
  {
    (c: string, limit: int, offset: int) =>
      if 0 <= offset && 0 <= limit then
        var lo := if offset <= |table| then offset else |table|;
        var hi := if offset + limit <= |table| then offset + limit else |table|;
        Fetched(table[lo..hi])
      else QueryError
  }

  /** The page an honest database yields for page `page` of `table`. */
  function PageOf<Row>(table: seq<Row>, page: int): Reply<Row>
    requires 1 <= page && (page - 1) * PageSize <= |table|
  {
    if |table| > page * PageSize then Page(table[(page - 1) * PageSize..page * PageSize], page + 1)
    else Page(table[(page - 1) * PageSize..], 0)
  }

  /** One page served by an honest database: twenty rows and the next page while more rows follow, then the rest and cursor 0. */
  lemma {:induction false} HonestPage<Row>(table: seq<Row>, channelId: string, page: int)
    requires 1 <= page && (page - 1) * PageSize <= |table| <= MaxInt64 / 2
    ensures Handle(true, channelId, Itoa(page), Honest(table)) == PageOf(table, page)
  {
    AtoiItoa(page);
    PositiveOffset(page);
    var offset := (page - 1) * PageSize;
    var rows := Honest(table)(channelId, Limit, offset).rows;
    if |table| > page * PageSize {
      assert rows == table[offset..offset + Limit];
      assert rows[..PageSize] == table[offset..page * PageSize];
    } else {
      assert rows == table[offset..];
    }
  }

  /**
   * The rows a client collects by requesting `page` and then each next
   * cursor, until the cursor is 0; `serve` answers one page request.  The
   * `total` bound only ensures termination: a cursor past it is not followed.
   */
  function Collect<Row>(serve: int -> Reply<Row>, page: int, total: nat): seq<Row>
    requires 1 <= page && (page - 1) * PageSize <= total
    decreases total - (page - 1) * PageSize
  {
    var r := serve(page);
    if r.Page? && r.nextCursor == page + 1 && page * PageSize < total then r.data + Collect(serve, page + 1, total)
    else if r.Page? then r.data
    else []
  }

  /** `serve` answers every page of `table` as an honest database would. */
  ghost predicate Serves<Row>(serve: int -> Reply<Row>, table: seq<Row>)
  {
    forall p :: 1 <= p && (p - 1) * PageSize <= |table| ==> serve(p) == PageOf(table, p)
  }

  /** Following the cursor from a page returns every later row exactly once, in order. */
  lemma {:induction false} CollectFrom<Row>(serve: int -> Reply<Row>, table: seq<Row>, page: int)
    requires Serves(serve, table)
    requires 1 <= page && (page - 1) * PageSize <= |table|
    ensures Collect(serve, page, |table|) == table[(page - 1) * PageSize..]
    decreases |table| - (page - 1) * PageSize
  {
    var lo := (page - 1) * PageSize;
    var mid := page * PageSize;
    assert mid == lo + PageSize;
    assert serve(page) == PageOf(table, page);
    if |table| > mid {
      assert (page + 1 - 1) * PageSize == mid;
      CollectFrom(serve, table, page + 1);
      assert table[lo..] == table[lo..mid] + table[mid..];
    }
  }

  /** Starting at page 1 and following the handler's cursor enumerates the whole channel without gaps or repeats. */
  lemma CollectAll<Row>(table: seq<Row>, channelId: string)
    requires |table| <= MaxInt64 / 2
    ensures Collect((p: int) => Handle(true, channelId, Itoa(p), Honest(table)), 1, |table|) == table
  {
    var serve := (p: int) => Handle(true, channelId, Itoa(p), Honest(table));
    forall p | 1 <= p && (p - 1) * PageSize <= |table|
      ensures serve(p) == PageOf(table, p)
    {
      HonestPage(table, channelId, p);
    }
    CollectFrom(serve, table, 1);
  }
}

/**
 * The paid-claims notepad of the backend: the file `paid.csv`, which starts with a
 * header line and is only ever extended by one line per accepted "I have paid"
 * claim, and the two read endpoints that return it verbatim or parsed into rows.
 */
module Notepad {
  import opened Wrappers
  import opened JsText

  /** The column names, and the header line `ensureCsvHeader` writes into a new file. */
  const HeaderText: string := "ts,wallet,qty,amount_sats"
  const Header: string := HeaderText + "\n"

  /** The chip sizes, the only quantities a claim may have. */
  predicate IsChip(q: int) { q == 1 || q == 2 || q == 5 || q == 10 }

  // ----- the request and its validation -----

  /** The JSON body of a POST to `/api/i-paid`; a field that is absent is None. */
  datatype Body = Body(wallet: Option<string>, qty: Option<int>, count: Option<int>, amountSats: Option<int>)

  /** A number field in `a || b`: truthy when present and not zero. */
  predicate Truthy(o: Option<int>) { o.Some? && o.value != 0 }

  /** `String(wallet || '').trim()`. */
  function RequestedWallet(b: Body): (w: string)
    ensures b.wallet.None? ==> w == []
    ensures b.wallet.Some? ==> w == Trim(b.wallet.value)
  {
    Trim(if b.wallet.Some? then b.wallet.value else "")
  }

  /** `Number(qty || count || 1)`: the first field that is present and non-zero, else 1. */
  function RequestedQty(b: Body): (q: int)
    ensures q != 0
    ensures Truthy(b.qty) ==> q == b.qty.value
    ensures !Truthy(b.qty) && Truthy(b.count) ==> q == b.count.value
    ensures !Truthy(b.qty) && !Truthy(b.count) ==> q == 1
  {
    if Truthy(b.qty) then b.qty.value else if Truthy(b.count) then b.count.value else 1
  }

  /** `Number(amount_sats || 0)`: the amount as the client reported it, 0 when absent. */
  function RequestedAmount(b: Body): (a: int)
    ensures a == OrElse(b.amountSats, 0)
  {
    if Truthy(b.amountSats) then b.amountSats.value else 0
  }

  datatype Rejection = WalletRequired | InvalidQty

  /** The `message` of a 400 reply; each reason has its own text. */
  function RejectionMessage(e: Rejection): (m: string)
    ensures m == "wallet required" <==> e == WalletRequired
    ensures m == "invalid qty" <==> e == InvalidQty
  {
    match e
    case WalletRequired => "wallet required"
    case InvalidQty => "invalid qty"
  }

  /** What a valid request asks the notepad to record (the timestamp is added when it is written). */
  datatype Accepted = Accepted(wallet: string, qty: int, amount: int)

  /**
   * The two checks of the POST handler: the wallet first, then the quantity.
   * The amount is taken as supplied; it is not checked against the quantity or the fee.
   */
  function Validate(b: Body): (r: Result<Accepted, Rejection>)
    ensures r == Err(WalletRequired) <==> RequestedWallet(b) == []
    ensures r == Err(InvalidQty) <==> RequestedWallet(b) != [] && !IsChip(RequestedQty(b))
    ensures r.Ok? <==> RequestedWallet(b) != [] && IsChip(RequestedQty(b))
    ensures r.Ok? ==> r.value.wallet == RequestedWallet(b) && r.value.qty == RequestedQty(b)
    ensures r.Ok? ==> r.value.amount == OrElse(b.amountSats, 0)
    ensures r.Ok? ==> Trim(r.value.wallet) == r.value.wallet
  {
    var wallet := RequestedWallet(b);
    var qty := RequestedQty(b);
    if wallet == [] then Err(WalletRequired)
    else if !IsChip(qty) then Err(InvalidQty)
    else
      TrimIdempotent(if b.wallet.Some? then b.wallet.value else "");
      Ok(Accepted(wallet, qty, RequestedAmount(b)))
  }

  /** The default quantity: a body without a usable `qty` or `count` records one unit. */
  lemma DefaultQuantityIsOne(w: string, amount: Option<int>)
    requires Trim(w) != []
    ensures Validate(Body(Some(w), None, None, amount)) == Ok(Accepted(Trim(w), 1, OrElse(amount, 0)))
  {
  }

  // ----- the line format -----

  /** One record of the notepad. */
  datatype Claim = Claim(ts: int, wallet: string, qty: int, amount: int)

  /** The claim written for an accepted request at time `now`. */
  function Stamp(a: Accepted, now: int): Claim {
    Claim(now, a.wallet, a.qty, a.amount)
  }

  /** The line of a claim without its newline. */
  function LineText(c: Claim): string {
    IntToString(c.ts) + "," + c.wallet + "," + IntToString(c.qty) + "," + IntToString(c.amount)
  }

  /** The line `ts,wallet,qty,amount` the POST handler appends, with its newline. */
  function Line(c: Claim): string {
    LineText(c) + "\n"
  }

  /** The four fields of a claim as the line writes them. */
  function Fields(c: Claim): seq<string> {
    [IntToString(c.ts), c.wallet, IntToString(c.qty), IntToString(c.amount)]
  }

  /** The line is the comma-join of the four fields. */
  lemma LineTextIsJoin(c: Claim)
    ensures LineText(c) == Join(Fields(c), ',')
  {
    var fs := Fields(c);
    var t, w, q, a := fs[0], fs[1], fs[2], fs[3];
    assert fs[1..][1..][1..] == [a];
    assert Join(fs[1..][1..], ',') == q + [','] + a;
    assert Join(fs[1..], ',') == w + [','] + (q + [','] + a);
    assert Join(fs, ',') == t + [','] + (w + [','] + (q + [','] + a));
  }

  /** The lines of a sequence of claims, in order. */
  function Lines(cs: seq<Claim>): string {
    if cs == [] then "" else Line(cs[0]) + Lines(cs[1..])
  }

  lemma {:induction false} LinesAppend(cs: seq<Claim>, c: Claim)
    ensures Lines(cs + [c]) == Lines(cs) + Line(c)
  {
    if cs == [] {
      assert [c][1..] == [];
    } else {
      assert (cs + [c])[1..] == cs[1..] + [c];
      LinesAppend(cs[1..], c);
      ConcatAssoc(Line(cs[0]), Lines(cs[1..]), Line(c));
    }
  }

  /** Appending the line of `c` to a file laid out as `prior` and the lines of `cs` lays it out as `prior` and the lines of `cs + [c]`. */
  lemma AppendKeepsLayout(prior: string, cs: seq<Claim>, c: Claim, f: string)
    requires f == prior + Lines(cs)
    ensures f + Line(c) == prior + Lines(cs + [c])
  {
    LinesAppend(cs, c);
    ConcatAssoc(prior, Lines(cs), Line(c));
  }

  /** A wallet the flat format can carry: no field separator and no line separator. */
  predicate Clean(c: Claim) { ',' !in c.wallet && '\n' !in c.wallet }

  // ----- the read-back pipeline of /api/paid.json -----

  /** One element of `rows`; Number() of an absent piece is NaN (OtherValue). */
  datatype Row = Row(ts: NumVal, wallet: Option<string>, qty: NumVal, amountSats: NumVal)

  /** `const [a, b, c, d] = pieces`: a piece past the end is `undefined`. */
  function Piece(ps: seq<string>, i: nat): (r: Option<string>)
    ensures r.Some? <==> i < |ps|
    ensures r.Some? ==> r.value == ps[i]
  {
    if i < |ps| then Some(ps[i]) else None
  }

  /** `Number(piece)`: NaN for an absent piece. */
  function NumberOf(o: Option<string>): NumVal {
    match o
    case None => OtherValue
    case Some(s) => ToNumber(s)
  }

  /** The row one line is turned into: its first four comma-separated pieces. */
  function ParseLine(line: string): Row {
    var ps := Split(line, ',');
    Row(NumberOf(Piece(ps, 0)), Piece(ps, 1), NumberOf(Piece(ps, 2)), NumberOf(Piece(ps, 3)))
  }

  /** `filter(Boolean)` on strings: the non-empty lines, in their order. */
  function NonEmpty(ls: seq<string>): (r: seq<string>)
    ensures |r| <= |ls|
    ensures forall l :: l in r <==> l in ls && l != []
    ensures (forall l :: l in ls ==> l != []) ==> r == ls
  {
    if ls == [] then []
    else
      assert ls[0] in ls && forall l :: l in ls[1..] ==> l in ls;
      if ls[0] == [] then NonEmpty(ls[1..])
      else [ls[0]] + NonEmpty(ls[1..])
  }

  /** `filter(Boolean)` keeps the order and the repetitions of the lines it keeps. */
  lemma {:induction false} NonEmptyAppend(a: seq<string>, b: seq<string>)
    ensures NonEmpty(a + b) == NonEmpty(a) + NonEmpty(b)
  {
    if a == [] {
      assert a + b == b;
    } else {
      assert (a + b)[0] == a[0];
      assert (a + b)[1..] == a[1..] + b;
      NonEmptyAppend(a[1..], b);
    }
  }

  /** A line with no comma reads back as its number alone; the other fields are missing or NaN. */
  lemma ParseLineWithoutComma(line: string)
    requires ',' !in line
    ensures ParseLine(line) == Row(ToNumber(line), None, OtherValue, OtherValue)
  {
    SplitNoSeparator(line, ',');
  }

  /** A line of four or more comma-free fields reads back as its first four; later fields are ignored. */
  lemma ParseLineFirstFour(fs: seq<string>)
    requires |fs| >= 4 && forall f :: f in fs ==> ',' !in f
    ensures ParseLine(Join(fs, ',')) == Row(ToNumber(fs[0]), Some(fs[1]), ToNumber(fs[2]), ToNumber(fs[3]))
  {
    SplitJoin(fs, ',');
  }

  function ParseLines(ls: seq<string>): (rows: seq<Row>)
    ensures |rows| == |ls|
    ensures forall i :: 0 <= i < |ls| ==> rows[i] == ParseLine(ls[i])
  {
    seq(|ls|, i requires 0 <= i < |ls| => ParseLine(ls[i]))
  }

  /** `text.trim().split('\n').slice(1).filter(Boolean).map(...)`. */
  function ParseRows(text: string): (rows: seq<Row>)
    ensures |rows| < |Split(Trim(text), '\n')|
  {
    var lines := Split(Trim(text), '\n');
    ParseLines(NonEmpty(lines[1..]))
  }

  /** The row a clean claim reads back as. */
  function RowOf(c: Claim): Row {
    Row(Num(c.ts), Some(c.wallet), Num(c.qty), Num(c.amount))
  }

  function RowsOf(cs: seq<Claim>): (rs: seq<Row>)
    ensures |rs| == |cs| && forall i :: 0 <= i < |cs| ==> rs[i] == RowOf(cs[i])
  {
    seq(|cs|, i requires 0 <= i < |cs| => RowOf(cs[i]))
  }

  function Texts(cs: seq<Claim>): (ts: seq<string>)
    ensures |ts| == |cs| && forall i :: 0 <= i < |cs| ==> ts[i] == LineText(cs[i])
  {
    seq(|cs|, i requires 0 <= i < |cs| => LineText(cs[i]))
  }

  /** A line followed by the lines of some claims is their newline-join, plus the final newline. */
  lemma {:induction false} LinesAsJoin(t: string, cs: seq<Claim>)
    decreases cs
    ensures t + "\n" + Lines(cs) == Join([t] + Texts(cs), '\n') + "\n"
  {
    if cs != [] {
      LinesAsJoin(LineText(cs[0]), cs[1..]);
      assert [LineText(cs[0])] + Texts(cs[1..]) == Texts(cs);
      assert ([t] + Texts(cs))[1..] == Texts(cs);
    } else {
      assert [t] + Texts(cs) == [t];
    }
  }

  /** A line of text the newline split keeps whole and the trim leaves alone; not the header. */
  predicate PlainLine(t: string) {
    t != [] && '\n' !in t && !IsWhite(t[0]) && !IsWhite(t[|t| - 1]) && t[0] != 't'
  }

  lemma LineTextPlain(c: Claim)
    requires '\n' !in c.wallet
    ensures PlainLine(LineText(c))
  {
    IntToStringAvoids(c.ts, '\n');
    IntToStringAvoids(c.qty, '\n');
    IntToStringAvoids(c.amount, '\n');
    var a := IntToString(c.amount);
    assert LineText(c)[|LineText(c)| - 1] == a[|a| - 1];
  }

  lemma TextsPlain(cs: seq<Claim>)
    requires forall i :: 0 <= i < |cs| ==> '\n' !in cs[i].wallet
    ensures forall t :: t in Texts(cs) ==> PlainLine(t)
  {
    forall i | 0 <= i < |cs| ensures PlainLine(Texts(cs)[i]) {
      LineTextPlain(cs[i]);
    }
  }

  /** Trimming text that ends in a newline, and otherwise starts and ends with a non-white character. */
  lemma TrimNewlineEnded(j: string)
    requires j != [] && !IsWhite(j[0]) && !IsWhite(j[|j| - 1])
    ensures Trim(j + "\n") == j
  {
    assert TrimStart(j + "\n") == j + "\n";
    assert (j + "\n")[..|j|] == j;
    assert TrimEnd(j + "\n") == TrimEnd(j);
  }

  /** Splitting a newline-terminated join whose ends are not white space gives the pieces back. */
  lemma SplitTerminatedJoin(ps: seq<string>)
    requires |ps| >= 1 && forall p :: p in ps ==> '\n' !in p
    requires ps[0] != [] && !IsWhite(ps[0][0])
    requires var l := ps[|ps| - 1]; l != [] && !IsWhite(l[|l| - 1])
    ensures Split(Trim(Join(ps, '\n') + "\n"), '\n') == ps
  {
    var j := Join(ps, '\n');
    JoinStarts(ps, '\n');
    JoinEnds(ps, '\n');
    TrimNewlineEnded(j);
    SplitJoin(ps, '\n');
  }

  /** The newline-split of a notepad holding `cs`: the header line, then one line per claim. */
  lemma {:induction false} SplitFile(cs: seq<Claim>)
    requires forall i :: 0 <= i < |cs| ==> '\n' !in cs[i].wallet
    ensures Split(Trim(Header + Lines(cs)), '\n') == [HeaderText] + Texts(cs)
  {
    LinesAsJoin(HeaderText, cs);
    TextsPlain(cs);
    SplitHeaderAndLines(Texts(cs));
  }

  lemma SplitHeaderAndLines(ts: seq<string>)
    requires forall t :: t in ts ==> PlainLine(t)
    ensures Split(Trim(Join([HeaderText] + ts, '\n') + "\n"), '\n') == [HeaderText] + ts
  {
    var ps := [HeaderText] + ts;
    assert forall p :: p in ps ==> p == HeaderText || p in ts;
    if ts != [] {
      assert ps[|ps| - 1] in ts;
    }
    SplitTerminatedJoin(ps);
  }

  /** A clean line parses back into the claim's row. */
  lemma ParseLineOfClaim(c: Claim)
    requires Clean(c)
    ensures ParseLine(LineText(c)) == RowOf(c)
  {
    var fs := Fields(c);
    IntToStringAvoids(c.ts, ',');
    IntToStringAvoids(c.qty, ',');
    IntToStringAvoids(c.amount, ',');
    LineTextIsJoin(c);
    SplitJoin(fs, ',');
    NumberOfIntToString(c.ts);
    NumberOfIntToString(c.qty);
    NumberOfIntToString(c.amount);
  }

  /**
   * Round trip: a notepad created fresh and extended with the lines of `cs` reads back
   * as exactly the rows of `cs`, in append order, when no wallet holds ',' or a newline.
   */
  lemma RoundTrip(cs: seq<Claim>)
    requires forall i :: 0 <= i < |cs| ==> Clean(cs[i])
    ensures ParseRows(Header + Lines(cs)) == RowsOf(cs)
  {
    ReadBackIsParsedLines(cs);
    ParseTexts(cs);
  }

  /** The lines of two runs of claims, one after the other. */
  lemma {:induction false} LinesConcat(a: seq<Claim>, b: seq<Claim>)
    ensures Lines(a + b) == Lines(a) + Lines(b)
  {
    if a == [] {
      assert a + b == b;
    } else {
      assert (a + b)[1..] == a[1..] + b;
      LinesConcat(a[1..], b);
      ConcatAssoc(Line(a[0]), Lines(a[1..]), Lines(b));
    }
  }

  /**
   * After a restart on an existing notepad holding the lines of `cs0`, appending the lines
   * of `cs` reads back as the rows of `cs0` followed by those of `cs`.
   */
  lemma RoundTripAfterRestart(cs0: seq<Claim>, cs: seq<Claim>)
    requires forall i :: 0 <= i < |cs0| ==> Clean(cs0[i])
    requires forall i :: 0 <= i < |cs| ==> Clean(cs[i])
    ensures ParseRows(Header + Lines(cs0) + Lines(cs)) == RowsOf(cs0 + cs)
  {
    LinesConcat(cs0, cs);
    ConcatAssoc(Header, Lines(cs0), Lines(cs));
    assert forall i :: 0 <= i < |cs0 + cs| ==> Clean((cs0 + cs)[i]) by {
      forall i | 0 <= i < |cs0 + cs| ensures Clean((cs0 + cs)[i]) {
        if i >= |cs0| { assert (cs0 + cs)[i] == cs[i - |cs0|]; }
      }
    }
    RoundTrip(cs0 + cs);
  }

  /** A fresh notepad whose wallets hold no newline reads back as the parse of each claim's line. */
  lemma ReadBackIsParsedLines(cs: seq<Claim>)
    requires forall i :: 0 <= i < |cs| ==> '\n' !in cs[i].wallet
    ensures ParseRows(Header + Lines(cs)) == ParseLines(Texts(cs))
  {
    SplitFile(cs);
    TextsPlain(cs);
    ParseRowsAfterFirstLine(Header + Lines(cs), HeaderText, Texts(cs));
  }

  /**
   * A text whose trimmed lines are `first` and then `ts` reads back as the rows of the
   * non-empty lines of `ts`, in order, whatever `first` holds.
   */
  lemma ParseRowsAfterFirstLine(text: string, first: string, ts: seq<string>)
    requires Split(Trim(text), '\n') == [first] + ts
    ensures ParseRows(text) == ParseLines(NonEmpty(ts))
    ensures (forall t :: t in ts ==> t != []) ==> ParseRows(text) == ParseLines(ts)
  {
    assert ([first] + ts)[1..] == ts;
  }

  lemma ParseTexts(cs: seq<Claim>)
    requires forall i :: 0 <= i < |cs| ==> Clean(cs[i])
    ensures ParseLines(Texts(cs)) == RowsOf(cs)
  {
    forall i | 0 <= i < |cs| ensures ParseLine(Texts(cs)[i]) == RowOf(cs[i]) {
      ParseLineOfClaim(cs[i]);
    }
  }

  /** A notepad holding only its header reads back as no rows. */
  lemma HeaderOnlyReadsNothing()
    ensures ParseRows(Header) == []
  {
    RoundTrip([]);
    assert Header + Lines([]) == Header;
  }

  /** In a fresh notepad the header is the first line, and no later line is a header. */
  lemma HeaderFirstAndOnly(cs: seq<Claim>)
    requires forall i :: 0 <= i < |cs| ==> '\n' !in cs[i].wallet
    ensures var lines := Split(Trim(Header + Lines(cs)), '\n');
      lines[0] == HeaderText && forall k :: 1 <= k < |lines| ==> lines[k] != HeaderText
  {
    SplitFile(cs);
    TextsPlain(cs);
  }

  /** Without the side condition the round trip fails: a wallet "a,b" reads back as "a". */
  lemma CommaInWalletBreaksRoundTrip()
    ensures var c := Claim(0, "a,b", 1, 0);
      ParseRows(Header + Lines([c])) != RowsOf([c])
  {
    var c := Claim(0, "a,b", 1, 0);
    OneLineReadBack(c);
    CommaWalletLine();
    assert RowsOf([c])[0].wallet == Some("a,b");
    assert "a" != "a,b";
  }

  /** The line of that claim has five comma-separated pieces, and the second is "a". */
  lemma CommaWalletLine()
    ensures Split(LineText(Claim(0, "a,b", 1, 0)), ',') == ["0", "a", "b", "1", "0"]
    ensures ParseLine(LineText(Claim(0, "a,b", 1, 0))).wallet == Some("a")
  {
    var fs := ["0", "a", "b", "1", "0"];
    CommaWalletJoin();
    SplitJoin(fs, ',');
  }

  lemma CommaWalletJoin()
    ensures LineText(Claim(0, "a,b", 1, 0)) == Join(["0", "a", "b", "1", "0"], ',')
  {
    var fs := ["0", "a", "b", "1", "0"];
    assert IntToString(0) == "0" && IntToString(1) == "1";
    assert Join(fs[4..], ',') == "0";
    assert Join(fs[3..], ',') == "1,0";
    assert Join(fs[2..], ',') == "b,1,0";
    assert Join(fs[1..], ',') == "a,b,1,0";
  }

  /** A fresh notepad with one claim whose wallet has no newline reads back as the parse of that line. */
  lemma OneLineReadBack(c: Claim)
    requires '\n' !in c.wallet
    ensures ParseRows(Header + Lines([c])) == [ParseLine(LineText(c))]
  {
    LinesAsJoin(HeaderText, [c]);
    LineTextPlain(c);
    assert Texts([c]) == [LineText(c)];
    SplitHeaderAndLines(Texts([c]));
    ParseRowsAfterFirstLine(Header + Lines([c]), HeaderText, Texts([c]));
  }

  // ----- the file and the endpoints -----

  /** `ensureCsvHeader` on the file's state: an absent file becomes the header line. */
  function WithHeader(f: Option<string>): (r: Option<string>)
    ensures r.Some?
    ensures f.Some? ==> r == f
    ensures f.None? ==> r == Some(Header)
  {
    if f.None? then Some(Header) else f
  }

  lemma WithHeaderIdempotent(f: Option<string>)
    ensures WithHeader(WithHeader(f)) == WithHeader(f)
  {
  }

  /** The JSON reply of the POST handler. */
  datatype Response = Recorded | BadRequest(reason: Rejection) | SaveFailed

  /** `{ok, status}` or `{ok, message}` as the client receives it. */
  datatype Reply = Reply(ok: bool, status: Option<string>, message: Option<string>)

  function ReplyOf(r: Response): (j: Reply)
    ensures j.ok <==> r.Recorded?
    ensures r.Recorded? ==> j.status == Some("RECORDED")
    ensures r.BadRequest? ==> j.message == Some(RejectionMessage(r.reason))
    ensures r.SaveFailed? ==> j.message == Some("failed to save")
  {
    match r
    case Recorded => Reply(true, Some("RECORDED"), None)
    case BadRequest(e) => Reply(false, None, Some(RejectionMessage(e)))
    case SaveFailed => Reply(false, None, Some("failed to save"))
  }

  /**
   * The notepad file `paid.csv`. `file` is the file on disk, None while it is absent;
   * `prior` is what it held when the server started (after the start-up header check)
   * and `claims` are the claims this server has appended since, in order.
   */
  class Store {
    var file: Option<string>
    ghost var prior: string
    ghost var claims: seq<Claim>

    ghost predicate Valid()
      reads this
    {
      file == Some(prior + Lines(claims))
    }

    /** Server start-up: the module-level `ensureCsvHeader()` call on whatever is on disk. */
    constructor (disk: Option<string>)
      ensures Valid() && claims == []
      ensures file == WithHeader(disk)
      ensures disk.None? ==> prior == Header
    {
      file := disk;
      new;
      EnsureHeader();
      prior := file.value;
      claims := [];
      assert prior + Lines(claims) == prior;
    }

    /** `ensureCsvHeader`: writes the header line only when the file is absent. */
    method EnsureHeader()
      modifies this`file
      ensures file == WithHeader(old(file))
    {
      if file.None? {
        file := Some(Header);
      }
    }

    /**
     * POST `/api/i-paid`: validates, then appends exactly one line stamped with `now`.
     * `appendFails` stands for `appendFileSync` throwing, which answers 500 and writes nothing.
     */
    method PostPaid(body: Body, now: int, appendFails: bool) returns (resp: Response)
      requires Valid()
      modifies this
      ensures Valid() && prior == old(prior)
      ensures Validate(body).Err? ==> resp == BadRequest(Validate(body).error)
      ensures Validate(body).Ok? ==> resp == (if appendFails then SaveFailed else Recorded)
      ensures resp.Recorded? ==> claims == old(claims) + [Stamp(Validate(body).value, now)]
      ensures resp.Recorded? ==> file == Some(old(file).value + Line(Stamp(Validate(body).value, now)))
      ensures !resp.Recorded? ==> claims == old(claims) && file == old(file)
      ensures old(file).value <= file.value
    {
      match Validate(body)
      case Err(e) =>
        resp := BadRequest(e);
      case Ok(a) =>
        EnsureHeader();
        if appendFails {
          resp := SaveFailed;
        } else {
          var c := Stamp(a, now);
          AppendKeepsLayout(prior, claims, c, file.value);
          file := Some(file.value + Line(c));
          claims := claims + [c];
          resp := Recorded;
        }
    }

    /** GET `/api/paid.csv`: the file's text, verbatim, after creating the header if the file is absent. */
    method GetPaidCsv() returns (text: string)
      modifies this`file
      ensures file == WithHeader(old(file))
      ensures text == file.value
      ensures old(Valid()) ==> Valid() && file == old(file)
    {
      EnsureHeader();
      text := file.value;
    }

    /**
     * GET `/api/paid.json`: the file parsed into rows, after creating the header if the file
     * is absent. A notepad that held the lines of clean claims when the server started (none,
     * when the server created it) reads back as those claims followed by the clean claims
     * appended since, in the order they were appended.
     */
    method GetPaidJson() returns (rows: seq<Row>)
      modifies this`file
      ensures file == WithHeader(old(file))
      ensures rows == ParseRows(file.value)
      ensures old(file).None? ==> rows == []
      ensures old(Valid()) ==> Valid() && file == old(file)
      ensures old(Valid()) && prior == Header && (forall i :: 0 <= i < |claims| ==> Clean(claims[i])) ==> rows == RowsOf(claims)
      ensures forall cs0: seq<Claim> ::
        (old(Valid()) && prior == Header + Lines(cs0) && (forall i :: 0 <= i < |cs0| ==> Clean(cs0[i]))
         && (forall i :: 0 <= i < |claims| ==> Clean(claims[i]))) ==> rows == RowsOf(cs0 + claims)
    {
      EnsureHeader();
      rows := ParseRows(file.value);
      if old(file).None? {
        HeaderOnlyReadsNothing();
      }
      if old(Valid()) && prior == Header && forall i :: 0 <= i < |claims| ==> Clean(claims[i]) {
        RoundTrip(claims);
      }
      forall cs0: seq<Claim> | old(Valid()) && prior == Header + Lines(cs0) && (forall i :: 0 <= i < |cs0| ==> Clean(cs0[i]))
        && (forall i :: 0 <= i < |claims| ==> Clean(claims[i]))
        ensures rows == RowsOf(cs0 + claims)
      {
        RoundTripAfterRestart(cs0, claims);
      }
    }
  }
}

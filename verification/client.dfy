/**
 * The page script: the selected quantity `count` and the configuration it fetched,
 * the cost and token totals it displays, the block-explorer link, the fee dialog,
 * and the check and request body of an "I have paid" submission.
 * Everything that touches the document is left out; what is modelled is what the
 * handlers compute.
 */
module Client {
  import opened Wrappers
  import opened JsText
  import Notepad

  /** The placeholder the page shows instead of an amount. */
  const Dash: string := "\U{2014}"

  const DefaultTokenName: string := "Lightning Bold"
  const DefaultTokenSymbol: string := "BOLD"
  const DefaultExplorer: string := "https://www.sparkscan.io"

  /** The `/api/config` reply as the page reads it; an absent field is None (`cfg.x ?? default`). */
  datatype Config = Config(
    feeSats: Option<int>, feeAddress: Option<string>, tokenName: Option<string>,
    tokenSymbol: Option<string>, tokensPerMint: Option<int>, tokenDecimals: Option<int>,
    maxMintsPerWallet: Option<int>, explorerBase: Option<string>)

  // ----- the explorer link -----

  /** `s.replace(/\/$/, '')`: removes one `/` at the very end, if there is one. */
  function DropTrailingSlash(s: string): (r: string)
    ensures |s| > 0 && s[|s| - 1] == '/' ==> r + "/" == s
    ensures !(|s| > 0 && s[|s| - 1] == '/') ==> r == s
  {
    if |s| > 0 && s[|s| - 1] == '/' then s[..|s| - 1] else s
  }

  /**
   * The explorer link for the fee address. A base that already holds `/address/` is used
   * unchanged; any other base loses one trailing `/` and gets `/address/` and the encoded
   * address appended. `encode` stands for `encodeURIComponent`.
   */
  function ExplorerLink(base: string, feeAddress: string, encode: string -> string): (link: string)
    ensures Contains(link, "/address/")
    ensures Contains(base, "/address/") ==> link == base
    ensures !Contains(base, "/address/") ==> link == DropTrailingSlash(base) + "/address/" + encode(feeAddress)
  {
    if Contains(base, "/address/") then base
    else
      var prefix := DropTrailingSlash(base);
      ContainsMiddle(prefix, "/address/", encode(feeAddress));
      prefix + "/address/" + encode(feeAddress)
  }

  // ----- the displayed totals -----

  /** What `renderCost` writes: the total in sats (or the dash) and the tokens received. */
  datatype CostView = CostView(costText: string, totalTokens: int)

  /**
   * `renderCost`: the total is `count × feeSats`, shown as the dash when the fee is 0;
   * the shown number reads back as that product. The token total is `count × tokensPerMint`.
   */
  function Cost(count: int, feeSats: int, tokensPerMint: int): (v: CostView)
    ensures v.costText == Dash <==> feeSats == 0
    ensures feeSats != 0 ==> ToNumber(v.costText) == Num(count * feeSats)
    ensures v.totalTokens == count * tokensPerMint
  {
    var totalSats := count * feeSats;
    NumberOfIntToString(totalSats);
    CostView(if feeSats != 0 then IntToString(totalSats) else Dash, count * tokensPerMint)
  }

  // ----- the fee dialog -----

  /** What the fee dialog shows: an error, or the address and the amount to pay. */
  datatype FeeDialog = AddressMissing | PayTarget(address: string, amountText: string)

  /** The dialog's error line: set only when the fee address is missing. */
  function FeeDialogMessage(d: FeeDialog): (m: string)
    ensures m != [] <==> d.AddressMissing?
    ensures d.AddressMissing? ==> m == "Fee address not available."
  {
    if d.AddressMissing? then "Fee address not available." else ""
  }

  /**
   * The "show fee" handler: without a fee address the dialog reports it and shows no
   * amount; otherwise the target is `count × feeSats`, or the dash when that is not positive.
   */
  function ShowFeeDialog(feeAddress: string, count: int, feeSats: int): (d: FeeDialog)
    ensures d.AddressMissing? <==> feeAddress == []
    ensures d.PayTarget? ==> d.address == feeAddress
    ensures d.PayTarget? ==> (d.amountText == Dash <==> count * feeSats <= 0)
    ensures d.PayTarget? && count * feeSats > 0 ==> ToNumber(d.amountText) == Num(count * feeSats)
  {
    if feeAddress == [] then AddressMissing
    else
      var total := count * feeSats;
      NumberOfIntToString(total);
      PayTarget(feeAddress, if total > 0 then IntToString(total) else Dash)
  }

  // ----- the submission -----

  /** The JSON body the page posts to `/api/i-paid`. */
  datatype Request = Request(wallet: string, qty: int, amountSats: int)

  datatype SubmitError = WalletMissing | NoAmountSelected

  /** The dialog's error line for a submission that is not sent; each reason has its own text. */
  function SubmitErrorMessage(e: SubmitError): (m: string)
    ensures m == "Destination wallet is required." <==> e == WalletMissing
    ensures m == "Select amount first." <==> e == NoAmountSelected
  {
    match e
    case WalletMissing => "Destination wallet is required."
    case NoAmountSelected => "Select amount first."
  }

  /**
   * The "I have paid" handler up to the request: nothing is sent when the trimmed wallet
   * is empty or `count` is not a chip size, the wallet being checked first; otherwise the
   * body carries the trimmed wallet, `qty = count` and `amount_sats = count × feeSats`.
   */
  function Submit(walletInput: string, count: int, feeSats: int): (r: Result<Request, SubmitError>)
    ensures r == Err(WalletMissing) <==> Trim(walletInput) == []
    ensures r == Err(NoAmountSelected) <==> Trim(walletInput) != [] && !Notepad.IsChip(count)
    ensures r.Ok? ==> r.value.wallet == Trim(walletInput) && r.value.qty == count
    ensures r.Ok? ==> r.value.amountSats == count * feeSats
  {
    var wallet := Trim(walletInput);
    if wallet == [] then Err(WalletMissing)
    else if !Notepad.IsChip(count) then Err(NoAmountSelected)
    else Ok(Request(wallet, count, count * feeSats))
  }

  /** The request as the server's handler receives it. */
  function BodyOf(req: Request): Notepad.Body {
    Notepad.Body(Some(req.wallet), Some(req.qty), None, Some(req.amountSats))
  }

  /** Every request the page sends passes the server's validation and is recorded as sent. */
  lemma SubmittedRequestIsAccepted(walletInput: string, count: int, feeSats: int)
    requires Submit(walletInput, count, feeSats).Ok?
    ensures var req := Submit(walletInput, count, feeSats).value;
      Notepad.Validate(BodyOf(req)) == Ok(Notepad.Accepted(req.wallet, req.qty, req.amountSats))
  {
    TrimIdempotent(walletInput);
  }

  /**
   * The page's two checks mirror the server's: were the untrimmed input sent, the server
   * would reject the same requests for the same reasons, as long as `count` is not 0
   * (the server reads a 0 quantity as absent and falls back to 1).
   */
  lemma PageChecksMirrorServer(walletInput: string, count: int, feeSats: int)
    requires count != 0
    ensures var b := Notepad.Body(Some(walletInput), Some(count), None, Some(count * feeSats));
      (Submit(walletInput, count, feeSats) == Err(WalletMissing) <==> Notepad.Validate(b) == Err(Notepad.WalletRequired))
      && (Submit(walletInput, count, feeSats) == Err(NoAmountSelected) <==> Notepad.Validate(b) == Err(Notepad.InvalidQty))
  {
  }

  /** How the page reports the reply. */
  datatype Outcome = Saved | Failed(message: string)

  /**
   * The reply handling: saved only when the reply has `ok` and status `RECORDED`;
   * otherwise the server's message, or `Server error.` when it has none. None stands
   * for a failed request or a reply that is not JSON.
   */
  function SubmitOutcome(reply: Option<Notepad.Reply>): (o: Outcome)
    ensures o == Saved <==> reply.Some? && reply.value.ok && reply.value.status == Some("RECORDED")
    ensures reply.None? ==> o == Failed("Network/Server error.")
    ensures reply.Some? && o.Failed? ==>
      o.message == (if reply.value.message.Some? && reply.value.message.value != [] then reply.value.message.value else "Server error.")
  {
    match reply
    case None => Failed("Network/Server error.")
    case Some(j) =>
      if j.ok && j.status == Some("RECORDED") then Saved
      else if j.message.Some? && j.message.value != [] then Failed(j.message.value)
      else Failed("Server error.")
  }

  /** The page reports a save exactly when the server recorded the claim, and otherwise shows the server's reason. */
  lemma SavedExactlyWhenRecorded(resp: Notepad.Response)
    ensures SubmitOutcome(Some(Notepad.ReplyOf(resp))) == Saved <==> resp.Recorded?
    ensures resp.BadRequest? ==> SubmitOutcome(Some(Notepad.ReplyOf(resp))) == Failed(Notepad.RejectionMessage(resp.reason))
    ensures resp.SaveFailed? ==> SubmitOutcome(Some(Notepad.ReplyOf(resp))) == Failed("failed to save")
  {
  }

  // ----- the chips -----

  /**
   * The chip click handler's reading of `data-x`: absent or empty does nothing, and
   * otherwise `Number(x)` is taken only when it is a chip size.
   */
  function ChipValue(x: Option<string>): (r: Option<int>)
    ensures r.Some? ==> Notepad.IsChip(r.value) && x.Some? && ToNumber(x.value) == Num(r.value)
    ensures r.Some? <==> x.Some? && x.value != [] && ToNumber(x.value).Num? && Notepad.IsChip(ToNumber(x.value).n)
  {
    if x.None? || x.value == [] then None
    else
      match ToNumber(x.value)
      case Num(n) => if Notepad.IsChip(n) then Some(n) else None
      case OtherValue => None
  }

  /** A chip labelled with its size selects that size. */
  lemma ChipLabelSelects(k: int)
    requires Notepad.IsChip(k)
    ensures ChipValue(Some(IntToString(k))) == Some(k)
  {
    NumberOfIntToString(k);
  }

  /** The worked example: fee 500 sats, 1000 tokens per mint, five selected, wallet "abc123". */
  lemma FiveAtFiveHundred()
    ensures Cost(5, 500, 1000).totalTokens == 5000
    ensures ToNumber(Cost(5, 500, 1000).costText) == Num(2500)
    ensures Submit("abc123", 5, 500) == Ok(Request("abc123", 5, 2500))
    ensures Notepad.Validate(BodyOf(Request("abc123", 5, 2500))) == Ok(Notepad.Accepted("abc123", 5, 2500))
  {
    TrimKeeps("abc123");
    SubmittedRequestIsAccepted("abc123", 5, 500);
  }

  /** The page's module-level state. */
  class Page {
    var mintFeeSats: int
    var feeAddress: string
    var tokenName: string
    var tokenSymbol: string
    var tokensPerMint: int
    var tokenDecimals: int
    var maxPerWallet: int
    var viewerBase: string
    /** The explorer link's target once a configuration arrived; None while the page's own remains. */
    var explorerHref: Option<string>
    var count: int

    /** The selected quantity is always a chip size. */
    ghost predicate Valid()
      reads this
    {
      Notepad.IsChip(count)
    }

    /** The initial values, before the configuration is fetched. */
    constructor ()
      ensures Valid() && count == 1
      ensures mintFeeSats == 0 && feeAddress == [] && tokensPerMint == 1000
      ensures tokenName == DefaultTokenName && tokenSymbol == DefaultTokenSymbol
      ensures tokenDecimals == 8 && maxPerWallet == 10 && viewerBase == DefaultExplorer
      ensures explorerHref == None
    {
      mintFeeSats := 0;
      feeAddress := [];
      tokenName := DefaultTokenName;
      tokenSymbol := DefaultTokenSymbol;
      tokensPerMint := 1000;
      tokenDecimals := 8;
      maxPerWallet := 10;
      viewerBase := DefaultExplorer;
      explorerHref := None;
      count := 1;
    }

    /**
     * The assignments after the configuration fetch. `cfg` is None when the fetch failed
     * or the response was not ok, and then nothing changes; `count` is never touched.
     */
    method LoadConfig(cfg: Option<Config>, encode: string -> string)
      requires Valid()
      modifies this
      ensures Valid() && count == old(count)
      ensures cfg.None? ==> unchanged(this)
      ensures cfg.Some? ==> mintFeeSats == OrElse(cfg.value.feeSats, 0) && feeAddress == OrElse(cfg.value.feeAddress, [])
      ensures cfg.Some? ==> tokenName == OrElse(cfg.value.tokenName, DefaultTokenName)
      ensures cfg.Some? ==> tokenSymbol == OrElse(cfg.value.tokenSymbol, DefaultTokenSymbol)
      ensures cfg.Some? ==> tokensPerMint == OrElse(cfg.value.tokensPerMint, 1000)
      ensures cfg.Some? ==> tokenDecimals == OrElse(cfg.value.tokenDecimals, 8)
      ensures cfg.Some? ==> maxPerWallet == OrElse(cfg.value.maxMintsPerWallet, 10)
      ensures cfg.Some? ==> viewerBase == OrElse(cfg.value.explorerBase, DefaultExplorer)
      ensures cfg.Some? ==> explorerHref == Some(ExplorerLink(viewerBase, feeAddress, encode))
    {
      if cfg.Some? {
        var c := cfg.value;
        mintFeeSats := OrElse(c.feeSats, 0);
        feeAddress := OrElse(c.feeAddress, []);
        tokenName := OrElse(c.tokenName, DefaultTokenName);
        tokenSymbol := OrElse(c.tokenSymbol, DefaultTokenSymbol);
        tokensPerMint := OrElse(c.tokensPerMint, 1000);
        tokenDecimals := OrElse(c.tokenDecimals, 8);
        maxPerWallet := OrElse(c.maxMintsPerWallet, 10);
        viewerBase := OrElse(c.explorerBase, DefaultExplorer);
        explorerHref := Some(ExplorerLink(viewerBase, feeAddress, encode));
      }
    }

    /** The chip handler: `count` takes the clicked chip's size, or stays as it was. */
    method Click(chip: Option<string>)
      requires Valid()
      modifies this`count
      ensures Valid()
      ensures count == OrElse(ChipValue(chip), old(count))
    {
      var next := ChipValue(chip);
      if next.Some? {
        count := next.value;
      }
    }

    /** `renderCost` on the current state. */
    method RenderCost() returns (v: CostView)
      ensures v == Cost(count, mintFeeSats, tokensPerMint)
    {
      v := Cost(count, mintFeeSats, tokensPerMint);
    }

    /** The "show fee" handler on the current state. */
    method ShowFee() returns (d: FeeDialog)
      ensures d == ShowFeeDialog(feeAddress, count, mintFeeSats)
    {
      d := ShowFeeDialog(feeAddress, count, mintFeeSats);
    }

    /** The "I have paid" handler on the current state: since `count` is a chip size, only the wallet check can stop it. */
    method PaidClick(walletInput: string) returns (r: Result<Request, SubmitError>)
      requires Valid()
      ensures r == Submit(walletInput, count, mintFeeSats)
      ensures r != Err(NoAmountSelected)
    {
      r := Submit(walletInput, count, mintFeeSats);
    }
  }
}

# Lightning Bold paid-claims notepad, modelled in Dafny

The backend keeps a "notepad" of self-reported payments: the file `paid.csv`. When the
file is absent, `ensureCsvHeader` creates it with the header line `ts,wallet,qty,amount_sats`.
After that, each accepted POST to `/api/i-paid` appends one line `ts,wallet,qty,amount`.
`/api/paid.csv` returns the file verbatim. `/api/paid.json` parses it back into rows:
it trims the text, splits it on newlines, drops the first line and empty lines, and splits
each line on commas. The page script keeps the selected quantity `count` (a chip size
1, 2, 5 or 10) and computes the totals it displays and the block-explorer link. It also
checks a submission and builds its request body.

Files:

- `wrappers.dfy`: `Option` and `Result`.
- `js_text.dfy` (module `JsText`): the JavaScript built-ins the core relies on: `trim`,
  `split` on one character and its inverse `join`, `includes`, how a template literal
  writes an integer, and `Number(text)` restricted to integers. Each has its
  characterising lemmas (`ToNumberCases` and `IntToStringCanonical` for the numbers). The main ones are `SplitJoin` (split undoes join when no piece
  holds the separator), `TrimSpec` and `NumberOfIntToString`.
- `notepad.dfy` (module `Notepad`): `backend/server.mjs`.
  - The request validation is the pure function `Validate`.
  - The line format is `Line`/`Lines`; the read-back pipeline is `ParseRows`.
  - The file is the class `Store`. Its field `file: Option<string>` is the file on disk,
    and None means absent. Its methods are the start-up header check and the three
    endpoints.
  - The ghost fields `prior` (the content at start-up) and `claims` (what this server
    appended) give the invariant `file == Some(prior + Lines(claims))`. So the file is
    only ever extended, one line per recorded claim.
  - `RoundTrip` proves that a fresh notepad reads back as exactly the appended claims,
    in order, when no wallet contains `,` or a newline (and, in the program, no unpaired
    surrogate: see "## Left out").
  - `CommaInWalletBreaksRoundTrip` shows that this side condition is needed.
- `client.dfy` (module `Client`): `backend/public/app.js`.
  - The class `Page` holds the page's module-level state. Its invariant is that `count`
    is always a chip size.
  - Pure functions model the cost display, the fee dialog, the explorer link, the
    submission check and request body, and the reply handling.
  - Lemmas tie the page to the server: every request the page sends passes `Validate`
    unchanged, and the page reports "saved" exactly when the server recorded the claim.

The clock (`Date.now()`) is the `now` parameter of `Store.PostPaid`. `encodeURIComponent`
is the `encode` parameter of `ExplorerLink`. A failing `appendFileSync` is the
`appendFails` parameter.

What the code does, and the model with it:
- the POST path is `/api/i-paid`;
- `amount_sats` is stored as the client supplied it (0 when absent) and is never
  recomputed from the quantity;
- a malformed row is not skipped. It is returned with `NaN` fields (`OtherValue`) or a
  missing wallet (`None`);
- the JSON read drops the first line of the trimmed text, whatever that line holds.

## Model

| member | source | states |
|---|---|---|
| JsText.TrimStartSpec | backend/server.mjs:67 | `TrimStart`: trimming the start drops exactly the leading run of white space; what is left is a suffix that does not start with white space |
| JsText.TrimEndSpec | backend/server.mjs:97 | `TrimEnd`: trimming the end drops exactly the trailing run of white space; what is left is a prefix that does not end with white space |
| JsText.TrimSpec | backend/server.mjs:67 | `Trim` (`trim`) keeps one slice of the text and removes only white space around it; the slice has no white space at either end; it is empty exactly when the text is all white space |
| JsText.TrimKeeps | backend/public/app.js:113 | text with no white space at either end is unchanged by `trim` |
| JsText.TrimIdempotent | backend/public/app.js:113 | trimming an already trimmed wallet changes nothing |
| JsText.ContainsMiddle | backend/public/app.js:45-47 | `Contains` (`includes`): a text built as prefix + t + suffix includes t |
| JsText.Split | backend/server.mjs:98 | `split` always yields at least one piece |
| JsText.SplitPieces | backend/server.mjs:99 | no piece of a split contains the separator |
| JsText.JoinSplit | backend/server.mjs:98-99 | `Join`: joining the pieces of a split with the separator gives back the original text |
| JsText.SplitJoin | backend/server.mjs:98-99 | if no piece contains the separator, splitting the joined pieces gives back exactly those pieces |
| JsText.NatToString | backend/server.mjs:75 | a natural number is written as at least one decimal digit, with no leading zero |
| JsText.IntToString | backend/server.mjs:75 | the text of an integer starts with a digit or `-`, has a leading `-` exactly when the integer is negative, and ends with a digit |
| JsText.IntToStringCanonical | backend/server.mjs:75 | the text of an integer is its canonical numeral: an optional `-`, then one or more digits without a leading zero whose value is the magnitude |
| JsText.DigitsOfNat | backend/server.mjs:100 | reading the written digits of a natural number gives that number back |
| JsText.ToNumber | backend/server.mjs:100 | `Number` of empty or all-white-space text is 0 |
| JsText.IntegerValue | backend/server.mjs:100 | a trimmed numeral of decimal digits reads as its value, with a leading `-` as its negation and a leading `+` as itself; every other text is NaN |
| JsText.ToNumberCases | backend/server.mjs:100 | `Number(text)` reads the trimmed text: unsigned digits as their value, `-` or `+` followed by digits with that sign; it is NaN exactly for every other trimmed text |
| JsText.NumberOfIntToString | backend/server.mjs:75 | `Number(String(n))` gives back n for every integer |
| JsText.IntToStringAvoids | backend/server.mjs:75 | a written integer contains only digits and `-`, so it contains no `,` and no newline |
| Notepad.RequestedWallet | backend/server.mjs:67 | the wallet is the trimmed `wallet` field, or empty when the field is absent |
| Notepad.RequestedQty | backend/server.mjs:68 | the quantity is `qty` if present and non-zero, else `count` if present and non-zero, else 1; it is never 0 |
| Notepad.RequestedAmount | backend/server.mjs:69 | the amount is `amount_sats` as supplied, or 0 when absent |
| Notepad.RejectionMessage | backend/server.mjs:71-72 | a missing wallet is reported as `wallet required` and a bad quantity as `invalid qty`, and each text names exactly one reason |
| Notepad.Validate | backend/server.mjs:67-72 | the request is rejected with `wallet required` exactly when the trimmed wallet is empty; otherwise with `invalid qty` exactly when the quantity is not 1, 2, 5 or 10; an accepted request keeps the trimmed wallet, the quantity and the amount as supplied |
| Notepad.DefaultQuantityIsOne | backend/server.mjs:68 | a body with neither `qty` nor `count` is recorded with quantity 1 |
| Notepad.LineTextIsJoin | backend/server.mjs:75 | `LineText` (the appended `Line` without its newline) is the comma-join of timestamp, wallet, quantity and amount |
| Notepad.LinesAppend | backend/server.mjs:76 | `Lines`: appending one more claim's line extends the lines of the earlier claims, with nothing else changed |
| Notepad.LinesConcat | backend/server.mjs:76 | the lines of two runs of claims, one after the other, are the lines of the joined run |
| Notepad.AppendKeepsLayout | backend/server.mjs:74-76 | a file laid out as the earlier content plus the lines of the claims stays so after one more claim is appended |
| Notepad.Piece | backend/server.mjs:99 | destructuring gives the piece at that index exactly when the index exists; past the end it gives `undefined` |
| Notepad.NonEmpty | backend/server.mjs:98 | `filter(Boolean)` keeps exactly the non-empty lines, never more lines than it was given, and all of them when none is empty |
| Notepad.NonEmptyAppend | backend/server.mjs:98 | `filter(Boolean)` works line by line: filtering two runs of lines one after the other is filtering each, so order and repetitions are kept |
| Notepad.ParseLineWithoutComma | backend/server.mjs:99-100 | `ParseLine`, `NumberOf`: a line with no comma is still a row: its timestamp is `Number` of the whole line, its wallet is missing and its quantity and amount are NaN |
| Notepad.ParseLineFirstFour | backend/server.mjs:99-100 | `ParseLine`, `NumberOf`: a line of four or more comma-free fields gives `Number` of the first, the second as the wallet, and `Number` of the third and fourth; later fields are ignored |
| Notepad.ParseLines | backend/server.mjs:98-101 | there is one row per line, the i-th row being the parse of the i-th line |
| Notepad.ParseRows | backend/server.mjs:97-101 | the read-back yields fewer rows than the trimmed text has lines |
| Notepad.ParseRowsAfterFirstLine | backend/server.mjs:97-101 | whatever the first trimmed line holds, the rows are the parses of the later non-empty lines, in order, one row per line; with no empty later line, one row per later line |
| Notepad.LinesAsJoin | backend/server.mjs:45 | a header followed by the claim lines is the newline-join of the header and the line texts, plus a final newline |
| Notepad.LineTextPlain | backend/server.mjs:75 | a line whose wallet has no newline contains no newline, does not begin or end with white space, and does not begin like the header |
| Notepad.SplitTerminatedJoin | backend/server.mjs:97-98 | trimming and splitting a newline-terminated join gives back its pieces, if the pieces contain no newline and the text has no white space at either end |
| Notepad.SplitFile | backend/server.mjs:97-98 | for a fresh notepad with clean wallets, the trimmed, newline-split text is the header followed by one line per claim |
| Notepad.ParseLineOfClaim | backend/server.mjs:99-100 | a line written for a claim with a clean wallet parses back into that claim's timestamp, wallet, quantity and amount |
| Notepad.ReadBackIsParsedLines | backend/server.mjs:97-101 | a fresh notepad whose wallets hold no newline (commas allowed) reads back as the parse of each appended line, in order |
| Notepad.ParseTexts | backend/server.mjs:99-100 | the lines of clean claims parse into those claims' rows, index by index |
| Notepad.RoundTrip | backend/server.mjs:97-101 | if no wallet contains `,` or a newline, a fresh notepad extended with the lines of some claims reads back as exactly those claims' rows, in append order |
| Notepad.RoundTripAfterRestart | backend/server.mjs:39-48 | a notepad that already held the lines of earlier clean claims when the server started, extended with the lines of new clean claims, reads back as the earlier rows followed by the new ones |
| Notepad.HeaderOnlyReadsNothing | backend/server.mjs:45 | a notepad that holds only its header reads back as no rows |
| Notepad.HeaderFirstAndOnly | backend/server.mjs:42-47 | in a fresh notepad whose wallets hold no newline, the first line is the header and no later line is a header |
| Notepad.CommaInWalletBreaksRoundTrip | backend/server.mjs:75 | the wallet `a,b` reads back as `a`, so the round trip needs its side condition |
| Notepad.CommaWalletLine | backend/server.mjs:99 | the line written for the wallet `a,b` splits into the five pieces `0`, `a`, `b`, `1`, `0`, so the wallet read back is `a` |
| Notepad.OneLineReadBack | backend/server.mjs:97-101 | a fresh notepad holding one claim whose wallet has no newline reads back as the parse of that claim's line |
| Notepad.WithHeader | backend/server.mjs:42-47 | the header check leaves an existing file as it is and turns an absent file into the header line |
| Notepad.WithHeaderIdempotent | backend/server.mjs:42-47 | running the header check twice has the same effect as running it once |
| Notepad.ReplyOf | backend/server.mjs:71-80 | the reply has `ok` exactly when the claim was recorded; it then has status `RECORDED`; otherwise it carries the rejection message or `failed to save` |
| Notepad.Store.constructor | backend/server.mjs:48 | at start-up an absent file is created holding only the header, and an existing file is kept |
| Notepad.Store.EnsureHeader | backend/server.mjs:42-47 | the header is written only when the file is absent |
| Notepad.Store.PostPaid | backend/server.mjs:65-82 | a rejected request answers with its reason and a failed append with `failed to save`, and both leave the file unchanged; a recorded claim is the validated wallet, quantity and amount stamped with `now`, and exactly its line is appended after the unchanged earlier content; the file is only ever extended |
| Notepad.Store.GetPaidCsv | backend/server.mjs:84-92 | returns the file text verbatim and changes nothing except creating an absent header |
| Notepad.Store.GetPaidJson | backend/server.mjs:94-106 | returns the parsed rows and changes nothing except creating an absent header; a file that was absent reads as no rows; a fresh notepad with clean wallets reads back as the recorded claims, in order; a notepad that held the lines of clean claims at start-up reads back as those claims followed by the recorded ones |
| Client.DropTrailingSlash | backend/public/app.js:47 | removes exactly one trailing `/`, and only when there is one |
| Client.ExplorerLink | backend/public/app.js:45-47 | the link always contains `/address/`; a base that already contains it is used unchanged; any other base loses one trailing `/` and gets `/address/` plus the encoded fee address |
| Client.Cost | backend/public/app.js:61-64 | the cost text is the dash exactly when the fee is 0, and otherwise reads back as `count × fee`; the token total is `count × tokensPerMint` |
| Client.FeeDialogMessage | backend/public/app.js:84-87 | the dialog shows an error line exactly when the fee address is missing, and it reads `Fee address not available.` |
| Client.ShowFeeDialog | backend/public/app.js:85-92 | without a fee address the dialog reports it missing; otherwise it shows the address, and the amount is the dash exactly when `count × fee` is not positive, else it reads back as that product |
| Client.SubmitErrorMessage | backend/public/app.js:113-114 | a missing wallet is reported as `Destination wallet is required.` and a missing quantity as `Select amount first.`, each text naming exactly one reason |
| Client.Submit | backend/public/app.js:113-123 | nothing is sent when the trimmed wallet is empty or, failing that, when `count` is not a chip size; otherwise the body is the trimmed wallet, `qty = count` and `amount_sats = count × fee` |
| Client.SubmittedRequestIsAccepted | backend/public/app.js:113-123 | every request the page sends, as the body `{wallet, qty, amount_sats}` without `count` (`BodyOf`), passes the server's validation and is recorded with the wallet, quantity and amount it carries |
| Client.PageChecksMirrorServer | backend/public/app.js:113-115 | for a non-zero count, the page rejects for a missing wallet or an invalid quantity exactly when the server would reject for that reason |
| Client.SubmitOutcome | backend/public/app.js:125-134 | the page reports "saved" exactly when the reply has `ok` and status `RECORDED`; otherwise it shows the server's message, or `Server error.`, or a network error |
| Client.SavedExactlyWhenRecorded | backend/public/app.js:126-131 | for the server's own replies, the page reports "saved" exactly when the claim was recorded, and otherwise shows the server's reason |
| Client.ChipValue | backend/public/app.js:70-73 | a chip click selects a value exactly when `data-x` is present, non-empty and a number in {1, 2, 5, 10}, and the value selected is that number |
| Client.ChipLabelSelects | backend/public/app.js:70-74 | a chip labelled with a chip size selects that size |
| Client.FiveAtFiveHundred | backend/public/app.js:61-64 | at a fee of 500 sats and 1000 tokens per mint, five units cost 2500 sats and give 5000 tokens, and the submission of `abc123` is recorded as sent |
| Client.Page.constructor | backend/public/app.js:22-30 | the page starts with count 1, fee 0, no fee address and the default token and explorer settings |
| Client.Page.LoadConfig | backend/public/app.js:32-48 | a received configuration sets each setting to its value or its default and sets the explorer link; a failed fetch changes nothing; `count` is untouched and stays a chip size |
| Client.Page.Click | backend/public/app.js:69-78 | `count` becomes the clicked chip's size, or stays the same for a missing or invalid value, so it is always 1, 2, 5 or 10 |
| Client.Page.RenderCost | backend/public/app.js:61-66 | the displayed totals are those of the current count, fee and tokens per mint |
| Client.Page.ShowFee | backend/public/app.js:80-94 | the dialog shows the current fee address and target amount |
| Client.Page.PaidClick | backend/public/app.js:108-115 | the submission is checked against the current count and fee; because `count` is always a chip size, only a missing wallet can stop it |

## Left out

- Express wiring is not modelled: helmet, CORS, JSON body parsing, static files, the `/api/config` and `/health` responders, and `listen`. They are framework plumbing.
- Reading the environment is not modelled, nor the `/tmp` path choice on Vercel. This includes removing a trailing `/` from the server's explorer base (backend/server.mjs:16). The page receives that base as configuration.
- Creating the data directory is not modelled separately. An absent file is simply created.
- A file removed from outside while the server runs (an ephemeral `/tmp` being reset) is not modelled. The invariant of `Store` assumes the file lasts as long as the server.
- Disk failures are modelled only as a failing append, which writes nothing and answers `failed to save`. Failures of the header write or of `readFileSync` (the 500 answers of the read endpoints), and partial writes, are not modelled.
- Strings are sequences of Unicode characters. JavaScript strings are UTF-16 code units, and a wallet holding an unpaired surrogate is written to the UTF-8 file as U+FFFD, so it reads back changed. This is not modelled.
- Concurrent requests and interleaved appends are not modelled.
- Numbers are integers. `Number(...)` results that are fractional or NaN in the request body are not modelled, and neither are quantities or amounts sent as JSON strings.
- A `wallet` field that is not a string (`String(123)`) is not modelled.
- Writing an integer uses plain decimal digits. JavaScript switches to exponent notation from 10^21 upward, which is not modelled.
- The JSON encoding of rows (NaN written as `null`) is not modelled.
- `JsText.ToNumber`: only empty or white-space text and optionally signed decimal digits are read. Other spellings that `Number` accepts (`5.0`, `1e3`, `0x5`, `Infinity`) become `OtherValue`, the same as NaN.
- `Notepad.ParseRows`: its own ensures only bounds the number of rows. Which rows it returns is stated by the lemma `Notepad.ParseRowsAfterFirstLine`, with `Notepad.NonEmpty` and `Notepad.NonEmptyAppend`.
- `Notepad.NonEmpty`: its own ensures states which lines are kept. That order and repetitions are kept is stated by the lemma `Notepad.NonEmptyAppend`.
- `Client.ChipValue`: a `data-x` such as `5.0` or `0x5`, which JavaScript reads as a chip size, is rejected by the model, because it relies on `JsText.ToNumber`.
- DOM output is not modelled: the price banner (`renderPrice`), chip highlighting, dialog visibility, the copy button and clipboard, the close button, disabling and relabelling the submit button, `toLocaleString` of the token total, and the token name and symbol text.
- The explorer link's initial `href` from the page markup is not modelled. `Page.explorerHref` is None until a configuration arrives.

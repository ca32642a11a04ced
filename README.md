# VBV BIN lookup API, modelled in Dafny

This project models the single-file VBV lookup service (`main.py`). The
service has one functional route, `/key=<key>/cc=<cc>`. It checks a shared
access key. It checks that the card payload `CC|MM|YYYY|CVV` is non-empty and
has exactly four `|`-separated fields. It takes the first six characters of the
card number as the BIN and scans the flat file `vbvbin.txt` line by line. The
first stripped line that starts with the BIN and has at least three
`|`-fields gives the lookup its status and message. The service calls the
card "Passed" when the status contains `FALSE` and "Rejected" otherwise. It
replies with the card, the gateway label, that outcome and a response text
made of an emoji, a space and the message.

Layout:

- `wrappers.dfy` (module `Wrappers`): `Option`.
- `text.dfy` (module `Text`): the Python string operations the code uses.
  These are `strip` (as `TrimStart`/`TrimEnd`/`Strip`), `startswith`, `s[:n]`
  (`Head`), `split('|')` with `Join`, which undoes it, and the substring test `in`
  (`Contains`). Each gets lemmas that characterise it independently.
- `bin_lookup.dfy` (module `BinLookup`): `check_vbv_bin`. The method
  `CheckVbvBin` is the line-by-line loop with its early return. It is proved
  equal to the function `Lookup`, which is built on the recursive first-match
  function `Scan`. The lemmas state what `Lookup` promises.
- `api.dfy` (module `Api`): `handle_request` as the function `HandleRequest`,
  which returns a `Reply` (HTTP code and JSON body). `Classify` is the
  `"FALSE" in status` rule.

The database file is an input value, `Database = Missing |
Present(lines, readFails)`:

- `Missing` is the case where `os.path.exists` is false.
- `Present(lines, false)` is a file whose iteration yields `lines` and ends.
- `Present(lines, true)` is a file whose opening or reading raises after
  `lines` were delivered. This covers a decoding error partway through the
  file, and an open error when `lines` is empty.

Lines that come before the failure are still scanned, as in the source. A
qualifying line before the failure is returned. Otherwise the result is the
"Lookup Error" fallback.

Where the code does less, or something other, than a description of the
service might suggest, the model follows the code:

- The code does no digit, length, month, year or CVV validation. The only
  format checks are "non-empty" and "exactly four `|`-fields".
- The 400 messages are the code's fixed strings. They are "CC parameter is
  required" and "Invalid CC format. Use CC|MM|YYYY|CVV". No part count is
  reported.
- Empty stripped lines are not skipped explicitly. They simply never
  qualify: an empty line has one field, so a matching empty line is skipped
  like any other short line.
- A prefixed line with fewer than three fields does not end the scan. Only a
  successful match returns.

`Lookup` is a function of the file contents and the card number. Repeated
lookups against an unchanged file therefore give the same result by
construction.

## Model

| member | source | states |
|---|---|---|
| `BinLookup.CheckVbvBin` | main.py:10-39 | The scan loop returns exactly `Lookup(db, binNumber)`. That is: the "database not found" pair for a missing file; otherwise fields 1 and 2 of the first qualifying line; "lookup error" if reading failed first; "not found" otherwise. |
| `BinLookup.ScanFirstMatch` | main.py:20-28 | First match wins. A qualifying line with no qualifying line before it decides the scan, and the scan yields that line's fields 1 and 2. |
| `BinLookup.ScanNone` | main.py:20-30 | The scan finds nothing if and only if no line of the file qualifies. |
| `BinLookup.ScanIgnoresLaterLines` | main.py:20-28 | Once some line qualifies, appending any lines to the file does not change the result. |
| `BinLookup.LookupFirstMatch` | main.py:20-28 | The lookup returns `(parts[1], parts[2])` of the first stripped line that starts with the BIN prefix and has at least three fields. |
| `BinLookup.ShortMatchSkipped` | main.py:22-24 | A line that starts with the prefix but has fewer than three fields is skipped: the result is that of the rest of the file. |
| `BinLookup.LookupNoMatch` | main.py:30-39 | With no qualifying line, the result is `("3D FALSE", "BIN Not Found in Database")`, or `("3D FALSE", "Lookup Error")` when reading failed. |
| `BinLookup.LookupUsesSixChars` | main.py:22 | Two card numbers with the same `[:6]` get the same lookup result, including numbers shorter than six characters. |
| `BinLookup.LookupOfPrefix` | main.py:57 | Cutting the card number to `[:6]` before the lookup, which cuts to `[:6]` again, changes nothing. |
| `BinLookup.EmptyBinMatchesFirstRecord` | main.py:22 | An empty card number gives an empty prefix that every line starts with. The first line with at least three fields then wins. |
| `BinLookup.RecordLineQualifies` | main.py:21-28 | A line `bin\|status\|message\|issuer` with separator-free fields and no surrounding whitespace qualifies for `bin` and yields `(status, message)`. |
| `Api.HandleRequest` | main.py:42-79 | A wrong key gives the 403 reply, whatever `cc` and the file are. With the right key, an empty `cc` gives the "required" 400 and any other `cc` without exactly four fields gives the "format" 400. The code is 200 exactly when the key is right and `cc` is well formed. A 200 body echoes `cc` unchanged and carries the fixed `Gateway` and `Dev` values. |
| `Api.Classify` | main.py:63-70 | The status is "✅ Passed" exactly when "FALSE" occurs at some position of the lookup status, and "❌ Rejected" otherwise. The response text is the same emoji, a space, then the lookup message. |
| `Api.SuccessReportsLookup` | main.py:56-79 | A well-formed request with the right key gets code 200, `CC` equal to the input `cc`, and the fixed `Gateway` and `Dev` values. Its status is "✅ Passed" exactly when "FALSE" occurs in the lookup status of the card number, and "❌ Rejected" otherwise. Its response is the matching emoji, a space, then the lookup message. |
| `Api.NoSeparatorRejected` | main.py:52-54 | A non-empty payload without `\|` is one field and is rejected with the format error. |
| `Api.AcceptedIffThreeSeparators` | main.py:48-54 | A payload, the empty one included, is accepted exactly when it contains three `\|` characters. |
| `Api.ThreeFieldsRejected` | main.py:52-54 | A payload of three separator-free fields is a format error. |
| `Api.FalseAnywherePasses` | main.py:63 | Any status with "FALSE" anywhere in it (e.g. "3D NOT FALSE") classifies as Passed. |
| `Api.FallbacksPass` | main.py:63-64 | The three fallback results all classify as Passed. |
| `Api.MissingDatabasePasses` | main.py:13-17 | With no database file, every well-formed request passes with the message "BIN Database Not Found". |
| `Api.NoRecordPasses` | main.py:30-39 | When no line qualifies, a well-formed request passes with "BIN Not Found in Database", or with "Lookup Error" if reading failed. |
| `Api.FirstRecordDecidesReply` | main.py:56-79 | For `num\|mm\|yy\|cvv` and a file whose first line is a record for `num[:6]`, the reply is 200 with that record's status and message classified, whatever the rest of the file holds. |
| `Text.StripShape` | main.py:21 | `strip` keeps a slice of the line with only whitespace around it. That slice neither starts nor ends with whitespace. |
| `Text.TrimStartShape` | main.py:21 | Leading-whitespace removal leaves a suffix, drops only whitespace, and stops at a non-whitespace character. |
| `Text.TrimEndShape` | main.py:21 | Trailing-whitespace removal leaves a prefix, drops only whitespace, and stops at a non-whitespace character. |
| `Text.StripIdempotent` | main.py:21 | Stripping a stripped line changes nothing. |
| `Text.StripUntrimmed` | main.py:21 | A line with no whitespace at either end is its own stripped form. |
| `Text.Head` | main.py:57 | `s[:n]` is a prefix of `s` of length `min(n, \|s\|)`. |
| `Text.HeadIdempotent` | main.py:57 | `s[:n][:n] == s[:n]`. |
| `Text.JoinSplit` | main.py:52 | Joining the pieces of `split('\|')` with `\|` gives back the string. |
| `Text.SplitJoin` | main.py:52 | Splitting a `\|`-join of separator-free pieces gives back those pieces. |
| `Text.SplitPieces` | main.py:23 | A split has at least one piece and no piece contains the separator. |
| `Text.SplitCount` | main.py:53 | A string splits into one more piece than it has separators. |
| `Text.SplitCons` | main.py:23 | A separator-free piece, then a separator, then the rest, splits into that piece followed by the split of the rest. |
| `Text.SplitOfFour` | main.py:56 | `a\|b\|c\|d` with separator-free parts splits into exactly `[a, b, c, d]`. |
| `Text.SplitOfThree` | main.py:52-53 | `a\|b\|c` with separator-free parts splits into exactly `[a, b, c]`. |
| `Text.ContainsIff` | main.py:63 | The substring test holds exactly when the needle occurs at some position. |

The functions that model the Python operations carry no contract of their
own. They are characterised by the lemmas above instead:

- `Text.Strip` (main.py:21): `StripShape`, `StripIdempotent`, `StripUntrimmed`.
- `Text.StartsWith` (main.py:22): Dafny's sequence prefix `<=`, used by `Qualifies`.
- `Text.Split` (main.py:23, 52): `SplitPieces`, `SplitCount`, `JoinSplit`, `SplitJoin`, `SplitCons`.
- `Text.Contains` (main.py:63): `ContainsIff`.
- `BinLookup.Scan` (main.py:20-28): `ScanFirstMatch`, `ScanNone`, `ScanIgnoresLaterLines`.
- `BinLookup.Lookup` (main.py:10-39): `CheckVbvBin`, with the `Lookup…` lemmas.
- `Api.WellFormed` (main.py:48-54): `HandleRequest`, `AcceptedIffThreeSeparators`.

## Left out

- Flask: application setup, route registration and URL decoding of the path
  segments, which the web framework does before `handle_request` runs. They
  are library plumbing. `jsonify` is modelled as the `Reply` value (code and
  body); the success code 200 is `jsonify`'s default.
- File I/O: `os.path.exists`, `open`, UTF-8 decoding and the exception
  handler. They are I/O and become the `Database` input described above.
  The model does not tell apart kinds of exception.
- The diagnostic `print` in the exception handler (main.py:35). It is
  logging only.
- The `home` route and the `__main__` block (main.py:83-94). They are static
  output and process start-up.
- Text.Strip: strips only the ASCII whitespace for which Python's
  `str.isspace` holds: space, tab, line feed, carriage return, vertical tab,
  form feed and the four separators 0x1C-0x1F. Python's `strip()` also
  removes non-ASCII Unicode whitespace, which this model does not.
- Text.Split: models `str.split` with a one-character separator only, which
  is the only form the code uses.
- No digit, length, month, year or CVV checks are modelled, because the code
  has none.

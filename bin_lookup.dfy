/**
  The BIN lookup of main.py (`check_vbv_bin`): a linear scan of the flat
  database file `vbvbin.txt`, first qualifying line wins, with three fixed
  fallback results.

  The file is an input here. `Missing` is a file that does not exist;
  `Present(lines, readFails)` is a file whose iteration yields `lines` and
  then either ends (`readFails == false`) or raises (`readFails == true`:
  an open or decoding error, raised before the first line when `lines` is
  empty).
 */
module BinLookup {
  import opened Wrappers
  import opened Text

  datatype Database = Missing | Present(lines: seq<string>, readFails: bool)

  /** The `{"status": ..., "response": ...}` record the lookup returns. */
  datatype LookupResult = LookupResult(status: string, response: string)

  const DatabaseNotFound := LookupResult("3D FALSE", "BIN Database Not Found")
  const BinNotFound := LookupResult("3D FALSE", "BIN Not Found in Database")
  const LookupError := LookupResult("3D FALSE", "Lookup Error")

  /** `bin_number[:6]`: only the first six characters are compared. */
  function BinPrefix(binNumber: string): string {
    Head(binNumber, 6)
  }

  /** The `|`-fields of a database line once it is stripped. */
  function Fields(line: string): seq<string> {
    Split(Strip(line), '|')
  }

  /** A line the scan returns from: its stripped form starts with the prefix
      and has at least three fields. */
  predicate Qualifies(line: string, prefix: string) {
    StartsWith(Strip(line), prefix) && |Fields(line)| >= 3
  }

  /** The result a qualifying line gives: its second and third fields. */
  function Record(line: string): LookupResult
    requires |Fields(line)| >= 3
  {
    LookupResult(Fields(line)[1], Fields(line)[2])
  }

  /** The record of the first qualifying line, if there is one. */
  function Scan(lines: seq<string>, prefix: string): Option<LookupResult> {
    if lines == [] then None
    else if Qualifies(lines[0], prefix) then Some(Record(lines[0]))
    else Scan(lines[1..], prefix)
  }

  /** What `check_vbv_bin(binNumber)` returns against the database `db`. */
  function Lookup(db: Database, binNumber: string): LookupResult {
    match db
    case Missing => DatabaseNotFound
    case Present(lines, readFails) =>
      match Scan(lines, BinPrefix(binNumber))
      case Some(r) => r
      case None => if readFails then LookupError else BinNotFound
  }

  /** The scan itself, line by line, returning on the first qualifying line. */
  method CheckVbvBin(db: Database, binNumber: string) returns (r: LookupResult)
    ensures r == Lookup(db, binNumber)
  {
    if db.Missing? {
      return DatabaseNotFound;
    }
    var prefix := BinPrefix(binNumber);
    var lines := db.lines;
    var i := 0;
    while i < |lines|
      invariant 0 <= i <= |lines|
      invariant Scan(lines, prefix) == Scan(lines[i..], prefix)
    {
      assert lines[i..][1..] == lines[i + 1..];
      var line := Strip(lines[i]);
      if StartsWith(line, prefix) {
        var parts := Split(line, '|');
        if |parts| >= 3 {
          return LookupResult(parts[1], parts[2]);
        }
      }
      i := i + 1;
    }
    if db.readFails {
      return LookupError;
    }
    return BinNotFound;
  }

  /** First match wins: a qualifying line with no qualifying line before it
      decides the scan. */
  lemma {:induction false} ScanFirstMatch(lines: seq<string>, prefix: string, i: nat)
    requires i < |lines| && Qualifies(lines[i], prefix)
    requires forall j :: 0 <= j < i ==> !Qualifies(lines[j], prefix)
    ensures Scan(lines, prefix) == Some(Record(lines[i]))
  {
    if i > 0 {
      assert !Qualifies(lines[0], prefix);
      assert forall j :: 0 <= j < i - 1 ==> lines[1..][j] == lines[j + 1];
      ScanFirstMatch(lines[1..], prefix, i - 1);
    }
  }

  /** The scan finds nothing exactly when no line qualifies. */
  lemma {:induction false} ScanNone(lines: seq<string>, prefix: string)
    ensures Scan(lines, prefix) == None <==> forall j :: 0 <= j < |lines| ==> !Qualifies(lines[j], prefix)
  {
    if lines != [] {
      ScanNone(lines[1..], prefix);
      assert forall j :: 0 < j < |lines| ==> lines[j] == lines[1..][j - 1];
    }
  }

  /** Lines after a qualifying line are never consulted. */
  lemma {:induction false} ScanIgnoresLaterLines(lines: seq<string>, more: seq<string>, prefix: string)
    requires Scan(lines, prefix).Some?
    ensures Scan(lines + more, prefix) == Scan(lines, prefix)
  {
    assert (lines + more)[0] == lines[0];
    if !Qualifies(lines[0], prefix) {
      assert (lines + more)[1..] == lines[1..] + more;
      ScanIgnoresLaterLines(lines[1..], more, prefix);
    }
  }

  /** The lookup returns fields 1 and 2 of the first qualifying line. */
  lemma LookupFirstMatch(lines: seq<string>, readFails: bool, binNumber: string, i: nat)
    requires i < |lines| && Qualifies(lines[i], BinPrefix(binNumber))
    requires forall j :: 0 <= j < i ==> !Qualifies(lines[j], BinPrefix(binNumber))
    ensures Lookup(Present(lines, readFails), binNumber) == LookupResult(Fields(lines[i])[1], Fields(lines[i])[2])
  {
    ScanFirstMatch(lines, BinPrefix(binNumber), i);
  }

  /** A line that starts with the prefix but has fewer than three fields is
      skipped: the scan goes on with the next line. */
  lemma ShortMatchSkipped(line: string, rest: seq<string>, readFails: bool, binNumber: string)
    requires StartsWith(Strip(line), BinPrefix(binNumber)) && |Fields(line)| < 3
    ensures Lookup(Present([line] + rest, readFails), binNumber) == Lookup(Present(rest, readFails), binNumber)
  {
    assert ([line] + rest)[1..] == rest;
  }

  /** Without a qualifying line the result is the "not found" fallback, or the
      "lookup error" fallback when reading the file failed. */
  lemma LookupNoMatch(lines: seq<string>, readFails: bool, binNumber: string)
    requires forall j :: 0 <= j < |lines| ==> !Qualifies(lines[j], BinPrefix(binNumber))
    ensures Lookup(Present(lines, readFails), binNumber) == if readFails then LookupError else BinNotFound
  {
    ScanNone(lines, BinPrefix(binNumber));
  }

  /** Only the first six characters of the card number matter (the whole
      number when it is shorter). */
  lemma LookupUsesSixChars(db: Database, a: string, b: string)
    requires Head(a, 6) == Head(b, 6)
    ensures Lookup(db, a) == Lookup(db, b)
  {
  }

  /** Cutting the card number to six characters first changes nothing. */
  lemma LookupOfPrefix(db: Database, binNumber: string)
    ensures Lookup(db, BinPrefix(binNumber)) == Lookup(db, binNumber)
  {
    HeadIdempotent(binNumber, 6);
  }

  /** An empty card number gives an empty prefix, which every line starts
      with: the first line with at least three fields wins. */
  lemma EmptyBinMatchesFirstRecord(lines: seq<string>, readFails: bool, i: nat)
    requires i < |lines| && |Fields(lines[i])| >= 3
    requires forall j :: 0 <= j < i ==> |Fields(lines[j])| < 3
    ensures Lookup(Present(lines, readFails), "") == Record(lines[i])
  {
    ScanFirstMatch(lines, "", i);
  }

  /** A database record in the file's layout `bin|status|message|issuer`. */
  function RecordLine(bin: string, status: string, message: string, issuer: string): string {
    bin + "|" + status + "|" + message + "|" + issuer
  }

  /** A record line with separator-free fields and no surrounding whitespace
      qualifies for its own BIN and yields its status and message. */
  lemma RecordLineQualifies(bin: string, status: string, message: string, issuer: string)
    requires '|' !in bin && '|' !in status && '|' !in message && '|' !in issuer
    requires bin != [] && !IsSpace(bin[0]) && issuer != [] && !IsSpace(issuer[|issuer| - 1])
    ensures Qualifies(RecordLine(bin, status, message, issuer), bin)
    ensures Record(RecordLine(bin, status, message, issuer)) == LookupResult(status, message)
  {
    var line := RecordLine(bin, status, message, issuer);
    assert line[0] == bin[0] && line[|line| - 1] == issuer[|issuer| - 1];
    StripUntrimmed(line);
    SplitOfFour(bin, status, message, issuer);
    assert line[..|bin|] == bin;
  }
}

/** The lookup side of prices.csv: getPreviousPrice's scan over the records the
    CSV reader returns, and what the scan yields in each case. The file is seen
    as its list of records; the writes live in the Pipeline module's Monitor. */
module PriceStore {
  import opened Values

  /** What the scan finds: the price field of the first row keyed by the ticker,
      no such row, or a row too short to index (a run-time panic in the source). */
  datatype Match = Hit(field: string) | Miss | OutOfRange

  /** The outcome of getPreviousPrice: a price, and whether the lookup itself
      issues a write of (ticker, 0); or the panic of an out-of-range field index. */
  datatype Lookup = Previous(price: real, writesZero: bool) | Panicked

  /** The scan of getPreviousPrice's loop: field 0 of each row is compared with
      the ticker, in order, and the first equal row decides. */
  function FindRow(rows: seq<Row>, ticker: string): (m: Match)
    ensures m.Hit? ==> exists i :: 0 <= i < |rows| && |rows[i]| >= 2 && rows[i][0] == ticker && rows[i][1] == m.field
    ensures m == Miss ==> forall i :: 0 <= i < |rows| ==> |rows[i]| > 0 && rows[i][0] != ticker
  {
    if rows == [] then Miss
    else if |rows[0]| == 0 then OutOfRange
    else if rows[0][0] == ticker then (if |rows[0]| < 2 then OutOfRange else Hit(rows[0][1]))
    else
      var m := FindRow(rows[1..], ticker);
      assert forall i :: 0 < i < |rows| ==> rows[i] == rows[1..][i - 1];
      m
  }

  /** The two rows one write of the price file emits: the header, then the
      ticker's row. Scanned for the ticker they yield the written price text,
      except for a ticker named "ticker", which meets the header's "price". */
  function Records(ticker: string, priceText: string): (rows: seq<Row>)
    ensures FindRow(rows, ticker) == if ticker == Header[0] then Hit(Header[1]) else Hit(priceText)
  {
    var rows := [Header, [ticker, priceText]];
    assert rows[1..] == [[ticker, priceText]];
    rows
  }

  /** getPreviousPrice as a function of what the file read gives back: `None`
      when the file cannot be opened or its contents are not valid CSV. */
  function LookupPrevious(contents: Option<seq<Row>>, ticker: string, parse: string -> Option<real>): (r: Lookup)
    ensures r.Previous? && r.writesZero ==> r.price == 0.0
    ensures r.Previous? && r.price != 0.0 ==>
      contents.Some? &&
      exists i :: 0 <= i < |contents.value| && |contents.value[i]| >= 2 && contents.value[i][0] == ticker &&
                  parse(contents.value[i][1]) == Some(r.price)
  {
    match contents
    case None => Previous(0.0, true)
    case Some(rows) =>
      match FindRow(rows, ticker)
      case Hit(field) => (match parse(field)
                          case Some(p) => Previous(p, false)
                          case None => Previous(0.0, false))
      case Miss => Previous(0.0, true)
      case OutOfRange => Panicked
  }

  /** Row `i` is the first row whose key field equals the ticker, and every row
      before it has a key field. */
  ghost predicate FirstMatchAt(rows: seq<Row>, ticker: string, i: int)
  {
    0 <= i < |rows| && |rows[i]| > 0 && rows[i][0] == ticker &&
    forall j :: 0 <= j < i ==> |rows[j]| > 0 && rows[j][0] != ticker
  }

  /** No row is keyed by the ticker, and every row has a key field. */
  ghost predicate NoRowFor(rows: seq<Row>, ticker: string)
  {
    forall j :: 0 <= j < |rows| ==> |rows[j]| > 0 && rows[j][0] != ticker
  }

  /** The loop of getPreviousPrice over the records read from the file: it stops
      at the first row keyed by the ticker, parses its price field and returns
      zero when that fails; when no row matches it reports that the zero
      record must be written. */
  method ScanRecords(rows: seq<Row>, ticker: string, parse: string -> Option<real>) returns (r: Lookup)
    ensures r == LookupPrevious(Some(rows), ticker, parse)
  {
    var previousPrice := 0.0;
    var matched := false;
    var i := 0;
    while i < |rows|
      invariant 0 <= i <= |rows|
      invariant !matched && previousPrice == 0.0
      invariant FindRow(rows[i..], ticker) == FindRow(rows, ticker)
    {
      var record := rows[i];
      assert rows[i..][1..] == rows[i + 1..];
      if |record| == 0 {
        return Panicked;
      }
      if record[0] == ticker {
        if |record| < 2 {
          return Panicked;
        }
        var parsed := parse(record[1]);
        matched := true;
        if parsed.None? {
          return Previous(0.0, false);
        }
        previousPrice := parsed.value;
        break;
      }
      i := i + 1;
    }
    return Previous(previousPrice, !matched);
  }

  /** The first row keyed by the ticker decides the scan: its price field, or
      a panic when the row has no second field. */
  lemma {:induction false} FindRowAtFirstMatch(rows: seq<Row>, ticker: string, i: int)
    requires FirstMatchAt(rows, ticker, i)
    ensures FindRow(rows, ticker) == if |rows[i]| >= 2 then Hit(rows[i][1]) else OutOfRange
  {
    if i > 0 {
      assert |rows[0]| > 0 && rows[0][0] != ticker;
      assert FirstMatchAt(rows[1..], ticker, i - 1) by {
        forall j | 0 <= j < i - 1
          ensures |rows[1..][j]| > 0 && rows[1..][j][0] != ticker
        {
          assert rows[1..][j] == rows[j + 1];
        }
      }
      FindRowAtFirstMatch(rows[1..], ticker, i - 1);
    }
  }

  /** The scan finds nothing exactly when every row has a key field and none
      of them is the ticker. */
  lemma {:induction false} FindRowMiss(rows: seq<Row>, ticker: string)
    ensures FindRow(rows, ticker) == Miss <==> NoRowFor(rows, ticker)
  {
    if rows != [] {
      FindRowMiss(rows[1..], ticker);
      if |rows[0]| > 0 && rows[0][0] != ticker {
        assert NoRowFor(rows, ticker) <==> NoRowFor(rows[1..], ticker) by {
          forall j | 0 < j < |rows| ensures rows[1..][j - 1] == rows[j] { }
        }
      }
    }
  }

  /** A hit always comes from the first row keyed by the ticker. */
  lemma {:induction false} FindRowHitIsFirst(rows: seq<Row>, ticker: string)
    requires FindRow(rows, ticker).Hit?
    ensures exists i :: FirstMatchAt(rows, ticker, i) && |rows[i]| >= 2 && rows[i][1] == FindRow(rows, ticker).field
  {
    if rows[0][0] == ticker {
      assert FirstMatchAt(rows, ticker, 0);
    } else {
      FindRowHitIsFirst(rows[1..], ticker);
      var i :| FirstMatchAt(rows[1..], ticker, i) && |rows[1..][i]| >= 2 && rows[1..][i][1] == FindRow(rows[1..], ticker).field;
      assert FirstMatchAt(rows, ticker, i + 1) by {
        forall j | 0 <= j < i + 1 ensures |rows[j]| > 0 && rows[j][0] != ticker {
          if j > 0 { assert rows[j] == rows[1..][j - 1]; }
        }
      }
    }
  }

  /** Rows after a decided scan are never looked at: appending rows (a later
      duplicate of the ticker, say) changes nothing unless the scan found nothing,
      and then the scan goes on into the appended rows. */
  lemma {:induction false} FindRowAppend(rows: seq<Row>, more: seq<Row>, ticker: string)
    ensures FindRow(rows + more, ticker) == if FindRow(rows, ticker) == Miss then FindRow(more, ticker) else FindRow(rows, ticker)
  {
    if rows == [] {
      assert rows + more == more;
    } else {
      assert (rows + more)[0] == rows[0];
      assert (rows + more)[1..] == rows[1..] + more;
      FindRowAppend(rows[1..], more, ticker);
    }
  }

  /** The zero fallbacks: a failed read and a missing row both give zero and
      ask for the zero record to be written; an unparsable price field gives
      zero and writes nothing. */
  lemma ZeroFallbacks(rows: seq<Row>, ticker: string, parse: string -> Option<real>)
    ensures LookupPrevious(None, ticker, parse) == Previous(0.0, true)
    ensures NoRowFor(rows, ticker) ==> LookupPrevious(Some(rows), ticker, parse) == Previous(0.0, true)
    ensures forall i :: FirstMatchAt(rows, ticker, i) && |rows[i]| >= 2 && parse(rows[i][1]).None? ==>
              LookupPrevious(Some(rows), ticker, parse) == Previous(0.0, false)
  {
    FindRowMiss(rows, ticker);
    forall i | FirstMatchAt(rows, ticker, i) && |rows[i]| >= 2 && parse(rows[i][1]).None?
      ensures LookupPrevious(Some(rows), ticker, parse) == Previous(0.0, false)
    {
      FindRowAtFirstMatch(rows, ticker, i);
    }
  }

  /** A parsable price field in the first row keyed by the ticker is the
      previous price, and nothing is written. */
  lemma FirstMatchIsPrevious(rows: seq<Row>, ticker: string, parse: string -> Option<real>, i: int)
    requires FirstMatchAt(rows, ticker, i) && |rows[i]| >= 2 && parse(rows[i][1]).Some?
    ensures LookupPrevious(Some(rows), ticker, parse) == Previous(parse(rows[i][1]).value, false)
  {
    FindRowAtFirstMatch(rows, ticker, i);
  }

  /** The header row is scanned like any other: a ticker spelled "ticker" meets
      the header first, whose "price" field does not parse, so it reads as zero
      and nothing is written, whatever rows follow. */
  lemma HeaderShadowsTickerNamedTicker(rows: seq<Row>, parse: string -> Option<real>)
    requires |rows| > 0 && rows[0] == Header && parse("price") == None
    ensures LookupPrevious(Some(rows), "ticker", parse) == Previous(0.0, false)
  {
  }

  /** The two rows of a write read back as the written price, as long as the
      ticker is not "ticker" and the decimal text parses back to the price. */
  lemma WrittenRecordsReadBack(ticker: string, price: real, codec: Codec)
    requires ticker != Header[0]
    requires codec.parse(codec.format(price)) == Some(price)
    ensures LookupPrevious(Some(Records(ticker, codec.format(price))), ticker, codec.parse) == Previous(price, false)
  {
  }
}

/** The `change` text of a history record: the signed stock delta written to
    the audit log by the update, create and delete paths of app.js
    (app.js:154-158, 174, 245), and a reader that recovers the number. */
module Changes {
  import opened Wrappers
  import opened Text

  /** The update path's encoding, `delta >= 0 ? "+" + delta : "" + delta`:
      a sign character, then the decimal digits of the magnitude. */
  function ChangeString(delta: int): (r: string)
    ensures |r| >= 2
    ensures r[0] == '+' <==> delta >= 0
    ensures r[0] == '-' <==> delta < 0
    ensures r[1..] == NatToString(if delta >= 0 then delta else -delta)
  {
    if delta >= 0 then "+" + IntToString(delta) else IntToString(delta)
  }

  /** Reads a signed decimal `+d` or `-d`; any other text is not a change. */
  function DecodeChange(s: string): (r: Option<int>)
  {
    if s == [] || (s[0] != '+' && s[0] != '-') then None
    else
      match ParseNat(s[1..])
      case None => None
      case Some(n) => Some(if s[0] == '+' then n as int else -(n as int))
  }

  /** Decoding the update's change string gives back the delta. */
  lemma DecodeChangeString(delta: int)
    ensures DecodeChange(ChangeString(delta)) == Some(delta)
  {
    ParseNatToString(if delta >= 0 then delta else -delta);
  }

  /** Distinct deltas are logged as distinct strings. */
  lemma ChangeStringInjective(a: int, b: int)
    requires ChangeString(a) == ChangeString(b)
    ensures a == b
  {
    DecodeChangeString(a);
    DecodeChangeString(b);
  }

  /** A signed text whose digits contain a second sign is not a change. */
  lemma DoubleSignUndecodable(sign: char, rest: string)
    ensures DecodeChange([sign] + rest).Some? ==> rest != [] && IsDigit(rest[0])
  {
    var s := [sign] + rest;
    if DecodeChange(s).Some? {
      assert s[1..] == rest;
      ParseNatDigits(rest);
    }
  }

  /** The change an update logs: the new stock minus the stock read before the
      write. A missing old stock makes the subtraction NaN, logged as "NaN". */
  function UpdateChange(stock: int, oldStock: Option<int>): (r: string)
    ensures oldStock.Some? ==> DecodeChange(r) == Some(stock - oldStock.value)
    ensures oldStock.None? ==> DecodeChange(r) == None
    ensures oldStock.Some? ==> r == ChangeString(stock - oldStock.value)
    ensures oldStock.None? ==> r == "NaN"
  {
    match oldStock
    case None => "NaN"
    case Some(before) => DecodeChangeString(stock - before); ChangeString(stock - before)
  }

  // ----- Create and delete, as written and as intended -----

  /** The create path as written, `"+" + stock`: for a negative quantity the
      result carries two signs ("+-5"). */
  function CreateChangeAsWritten(stock: int): string
  {
    "+" + IntToString(stock)
  }

  /** A negative quantity, which the form accepts, yields a create record
      that does not read as a signed number. */
  lemma CreateChangeAsWrittenMalformed(stock: int)
    requires stock < 0
    ensures DecodeChange(CreateChangeAsWritten(stock)) == None
    ensures CreateChangeAsWritten(-5) == "+-5"
  {
    var s := CreateChangeAsWritten(stock);
    assert s == ['+'] + IntToString(stock);
    DoubleSignUndecodable('+', IntToString(stock));
    assert NatToString(5) == "5";
  }

  /** The create record as intended: the signed stock added, which agrees
      with the source for every non-negative quantity. */
  function CreateChange(stock: int): (r: string)
    ensures DecodeChange(r) == Some(stock)
    ensures stock >= 0 ==> r == CreateChangeAsWritten(stock)
    ensures stock < 0 ==> r == ChangeString(stock)
  {
    DecodeChangeString(stock);
    ChangeString(stock)
  }

  /** `${undefined}` and `${n}` for the stock field of a document. */
  function StockText(stock: Option<int>): string
  {
    match stock
    case None => "undefined"
    case Some(n) => IntToString(n)
  }

  /** The delete path as written, `"-" + stock`: a negative stock gives "--5"
      and a missing one "-undefined". */
  function DeleteChangeAsWritten(stock: Option<int>): string
  {
    "-" + StockText(stock)
  }

  /** Deleting a product whose stock is negative or missing logs a record that
      does not read as a signed number. */
  lemma DeleteChangeAsWrittenMalformed(stock: Option<int>)
    requires stock.None? || stock.value < 0
    ensures DecodeChange(DeleteChangeAsWritten(stock)) == None
    ensures DeleteChangeAsWritten(Some(-5)) == "--5"
    ensures DeleteChangeAsWritten(None) == "-undefined"
  {
    var s := DeleteChangeAsWritten(stock);
    assert s == ['-'] + StockText(stock);
    DoubleSignUndecodable('-', StockText(stock));
    assert NatToString(5) == "5";
  }

  /** The delete record as intended: the signed stock removed, which agrees
      with the source for every non-negative stock. */
  function DeleteChange(stock: int): (r: string)
    ensures DecodeChange(r) == Some(-stock)
    ensures stock >= 0 ==> r == DeleteChangeAsWritten(Some(stock))
    ensures stock < 0 ==> r == ChangeString(-stock)
  {
    var magnitude := if stock >= 0 then stock else -stock;
    ParseNatToString(magnitude);
    var r := (if stock >= 0 then "-" else "+") + NatToString(magnitude);
    assert r[1..] == NatToString(magnitude);
    r
  }
}

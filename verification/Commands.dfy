/** The API's placement command: the payload a request becomes, and what the engine reads from it. */
module Commands {
  import opened Digits
  import opened Decimals
  import opened DecimalText
  import opened Orders
  import opened Snapshots
  import opened Exchange
  import opened Bigs
  import opened Engines
  import opened Ledgers

  /** A request as it comes in: numbers are text. */
  datatype Request = Request(
    userId: string, market: string, side: Side, kind: OrderType, price: Option<string>, quantity: string,
    tif: TimeInForce, leverage: Option<string>, marginMode: string, reduceOnly: bool, postOnly: bool,
    clientOrderId: Option<string>)

  /** What the request schema lets through, digits with or without decimals, and the engine's int64 can hold. */
  ghost predicate Plain(s: string) {
    exists i: string, f: string :: PlainParts(s, i, f)
  }

  ghost predicate PlainParts(s: string, i: string, f: string) {
    i != [] && AllDigits(i + f) && FromDigits(i + f) < TWO_63 && s == Join(i, f)
  }

  ghost predicate PlainRequest(r: Request) {
    && Plain(r.quantity) && (r.price.Some? ==> Plain(r.price.value)) && (r.leverage.Some? ==> Plain(r.leverage.value))
  }

  /** The server's reading of a number. */
  ghost function NumberOf(s: string): real {
    if Readable(s) then BVal(FromText(s)) else 0.0
  }

  /** The request with the server's numbers. */
  ghost function InputOf(r: Request, at: int): PlaceInput {
    PlaceInput(r.userId, r.market, r.side, r.kind, if r.price.Some? then Some(NumberOf(r.price.value)) else None,
               NumberOf(r.quantity), r.tif, if r.leverage.Some? then Some(NumberOf(r.leverage.value)) else None, r.marginMode,
               r.reduceOnly, r.postOnly, r.clientOrderId, at)
  }

  function Nullable(s: Option<string>): Json {
    if s.Some? then Str(s.value) else Null
  }

  /** The payload: an absent price or client id is null, an absent leverage is one. */
  function Payload(id: string, r: Request, at: int): JsonObject {
    map["orderId" := Str(id), "userId" := Str(r.userId), "market" := Str(r.market), "side" := Str(SideStr(r.side)),
        "orderType" := Str(TypeStr(r.kind)), "price" := Nullable(r.price), "quantity" := Str(r.quantity),
        "timeInForce" := Str(TifStr(r.tif)), "reduceOnly" := Bool(r.reduceOnly), "postOnly" := Bool(r.postOnly),
        "clientOrderId" := Nullable(r.clientOrderId),
        "leverage" := Str(if r.leverage.Some? then r.leverage.value else "1"), "marginMode" := Str(r.marginMode),
        "sequence" := Num(at), "timestamp" := Num(at)]
  }

  lemma PayloadNames(id: string, r: Request, at: int)
    ensures var j := Payload(id, r, at);
            && JStr(j, "id", JStr(j, "orderId", "")) == id && JStr(j, "userId", "") == r.userId
            && JStr(j, "market", "") == r.market && JStr(j, "side", "buy") == SideStr(r.side)
  {
    hide SideStr, TypeStr, TifStr, Nullable;
  }

  lemma PayloadTerms(id: string, r: Request, at: int)
    ensures var j := Payload(id, r, at);
            && JStr(j, "orderType", "limit") == TypeStr(r.kind) && JStr(j, "timeInForce", "GTC") == TifStr(r.tif)
            && JStr(j, "clientOrderId", "") == (if r.clientOrderId.Some? then r.clientOrderId.value else "")
            && JStr(j, "marginMode", "isolated") == r.marginMode
  {
    hide SideStr, TypeStr, TifStr;
  }

  lemma PayloadNumbers(id: string, r: Request, at: int)
    ensures var j := Payload(id, r, at);
            && JStr(j, "price", "0") == (if r.price.Some? then r.price.value else "0")
            && JStr(j, "quantity", "0") == r.quantity
            && JStr(j, "leverage", "1") == (if r.leverage.Some? then r.leverage.value else "1")
            && JBool(j, "reduceOnly", false) == r.reduceOnly && JBool(j, "postOnly", false) == r.postOnly
            && JInt(j, "timestamp", 0) == at
  {
    hide SideStr, TypeStr, TifStr;
  }

  /** Both sides read plain text as the same number. */
  lemma SameNumber(s: string)
    requires Plain(s)
    ensures s != "" && Val(Parse(s)) == NumberOf(s)
  {
    var i: string, f: string :| PlainParts(s, i, f);
    hide Parse, FromText, FromDigits, Readable, ValueOf;
    RequestNumbersAgree(i, f);
  }

  lemma SmallNumbers()
    ensures Val(Parse("0")) == 0.0 && Val(Parse("1")) == 1.0
  {
    DigitText('0');
    DigitText('1');
  }

  lemma DigitText(c: char)
    requires IsDigit(c)
    ensures Val(Parse([c])) == FromDigits([c]) as real
  {
    hide Parse, FromText, Readable;
    assert [c] + [] == [c] && Join([c], []) == [c];
    assert FromDigits([c]) < TWO_63;
    hide FromDigits;
    RequestNumbersAgree([c], []);
  }

  /**
   * From the text of a request to the order on the book: what the engine reads from the payload is the order that the
   * ledger's row and reservation were made for.
   */
  lemma PayloadIsOrderSent(id: string, r: Request, at: int)
    requires PlainRequest(r)
    ensures ViewOrder(OrderOf(Payload(id, r, at))) == OrderSent(id, InputOf(r, at))
  {
    hide Parse, Payload, JStr, JBool, JInt, Plain, NumberOf, ValueOf, SideStr, TypeStr, TifStr, ParseSide, ParseType, ParseTif;
    PayloadNames(id, r, at);
    PayloadTerms(id, r, at);
    PayloadNumbers(id, r, at);
    NamesBack(r.side, r.kind, r.tif);
    SmallNumbers();
    SameNumber(r.quantity);
    if r.price.Some? {
      SameNumber(r.price.value);
    }
    if r.leverage.Some? {
      SameNumber(r.leverage.value);
    }
    NothingFilled();
  }

  lemma NothingFilled()
    ensures Val(ZERO) == 0.0
  {
  }

  lemma NamesBack(side: Side, kind: OrderType, tif: TimeInForce)
    ensures ParseSide(SideStr(side)) == side && ParseType(TypeStr(kind)) == kind && ParseTif(TifStr(tif)) == tif
  {
  }

  /** What the engine takes a payload to mean that says nothing; and an id under its other name. */
  lemma SilentPayload(id: string)
    ensures var o := ViewOrder(OrderOf(map["orderId" := Str(id)]));
            o == OrderView(id, "", Buy, 0.0, 0.0, 0.0, 1.0, Terms("", Limit, GTC, false, false, "", "isolated", 0))
  {
    SmallNumbers();
    NothingFilled();
    hide Parse;
  }
}

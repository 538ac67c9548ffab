/**
  The payload schemas of `indexer/src/schemas.ts`, on JavaScript values. A schema that throws answers
  `None`; the texts of its errors are not part of this model.
 */
module Schemas {
  import opened JsText
  import opened Sequences
  import opened Wrappers

  const MAX_SAFE := 9007199254740991
  const DISPLAY_NAME_MAX := 50
  const DEFAULT_POINTS := 5
  const DEFAULT_REWARD := 3
  const CATEGORIES: seq<string> := ["Crypto", "Sports", "Politics", "Entertainment", "Science", "Other"]

  // ----- JavaScript values -----

  datatype Number = Finite(value: real) | NaN | PosInfinity | NegInfinity

  /** Property names: those the code mentions, and any others. */
  datatype Field =
    | MarketIdField | QuestionField | CategoryField | EndTimeField | CreatorField | ImageUrlField | OutcomeField
    | BettorField | UserField | IsYesField | AmountField | GrossAmountField | GrossField | NetAmountField
    | NetField | FeeField | IsIncreaseField | ReferrerField | PointsField | AddressField | RegistrantField
    | DisplayNameField | CamelDisplayNameField | NameField | ReferrerAddressField | WelcomeBonusPointsField
    | WelcomePointsField | ReferrerBonusPointsField | BonusPointsField | ReferralPointsField
    | ReferrerPointsField | TopicsField | DataField | LedgerField | TxHashField | SnakeTxHashField
    | EventIndexField | AnotherField(text: string)

  datatype Js =
    | Undefined
    | Null
    | Bool(b: bool)
    | Num(n: Number)
    | Big(i: int)
    | Str(s: string)
    | Arr(items: seq<Js>)
    | Obj(fields: map<Field, Js>)

  /** The conversions between numbers and text that the language defines and the model leaves open. */
  datatype Conversions = Conversions(ofText: string -> Number, ofBig: int -> Number, textOf: real -> string)

  /** What is used of them: a bigint and its text convert alike, and text with a comma, or the text of a
      number that is not finite, is no finite number. */
  ghost predicate Coherent(c: Conversions) {
    && (forall i :: c.ofText(BigText(i)) == c.ofBig(i))
    && (forall s | ',' in s || IsNonFiniteText(s) :: !c.ofText(s).Finite?)
  }

  predicate IsNonFiniteText(s: string) { s == "NaN" || s == "Infinity" || s == "-Infinity" }

  predicate Nullish(v: Js) { v.Undefined? || v.Null? }

  /** `a ?? b` */
  function Coalesce(a: Js, b: Js): Js { if Nullish(a) then b else a }

  function Get(fields: map<Field, Js>, key: Field): Js { if key in fields then fields[key] else Undefined }

  function Item(items: seq<Js>, i: nat): Js { if i < |items| then items[i] else Undefined }

  function NumberText(c: Conversions, n: Number): string {
    match n
    case Finite(r) => c.textOf(r)
    case NaN => "NaN"
    case PosInfinity => "Infinity"
    case NegInfinity => "-Infinity"
  }

  /** `String(v)` */
  function Text(c: Conversions, v: Js): string {
    match v
    case Undefined => "undefined"
    case Null => "null"
    case Bool(b) => if b then "true" else "false"
    case Num(n) => NumberText(c, n)
    case Big(i) => BigText(i)
    case Str(s) => s
    case Arr(items) => ItemsText(c, items)
    case Obj(_) => "[object Object]"
  }

  function ItemsText(c: Conversions, items: seq<Js>): string {
    if items == [] then ""
    else
      var head := if Nullish(items[0]) then "" else Text(c, items[0]);
      if |items| == 1 then head else head + "," + ItemsText(c, items[1..])
  }

  /** `Number(v)` */
  function ToNumber(c: Conversions, v: Js): Number {
    match v
    case Undefined => NaN
    case Null => Finite(0.0)
    case Bool(b) => Finite(if b then 1.0 else 0.0)
    case Num(n) => n
    case Big(i) => c.ofBig(i)
    case Str(s) => c.ofText(s)
    case Arr(items) => c.ofText(ItemsText(c, items))
    case Obj(_) => NaN
  }

  /** `Number.isSafeInteger(n)` */
  predicate IsSafeInteger(n: Number) {
    n.Finite? && n.value == n.value.Floor as real && -MAX_SAFE <= n.value.Floor <= MAX_SAFE
  }

  /** `Number(text)` of digits is a safe integer exactly when the integer they denote is one. */
  function SafeDigits(s: string): Option<nat> {
    if IsDigits(s) && NumberValue(s) <= MAX_SAFE then Some(NumberValue(s)) else None
  }

  // ----- fields -----

  /** `parseMarketId` and `parseUnsignedInteger`. */
  function ParseUnsigned(v: Js): Option<nat> {
    match v
    case Num(n) => if IsSafeInteger(n) && n.value >= 0.0 then Some(n.value.Floor) else None
    case Big(i) => SafeDigits(BigText(i))
    case Str(s) => SafeDigits(s)
    case _ => None
  }

  /** `/^[GC][A-Z2-7]{55}$/` */
  predicate IsAddress(s: string) {
    && |s| == 56 && (s[0] == 'G' || s[0] == 'C')
    && forall i | 1 <= i < 56 :: 'A' <= s[i] <= 'Z' || '2' <= s[i] <= '7'
  }

  function ParseAddress(v: Js): Option<string> { if v.Str? && IsAddress(v.s) then Some(v.s) else None }

  function ParseCategory(c: Conversions, v: Js): Option<string> {
    if Text(c, v) in CATEGORIES then Some(Text(c, v)) else None
  }

  function ParseQuestion(v: Js): Option<string> { if v.Str? && Trim(v.s) != "" then Some(v.s) else None }

  function ParseImageUrl(v: Js): Option<Option<string>> {
    if Nullish(v) then Some(None) else if v.Str? then Some(Some(v.s)) else None
  }

  function Lower(s: string): string {
    if s == "" then ""
    else [if 'A' <= s[0] <= 'Z' then (s[0] as int + 32) as char else s[0]] + Lower(s[1..])
  }

  predicate SaysYes(t: string) { t == "true" || t == "t" || t == "yes" || t == "y" || t == "1" }

  predicate SaysNo(t: string) { t == "false" || t == "f" || t == "no" || t == "n" || t == "0" }

  /** `parseOutcome` and `parseBetBoolean`. */
  function ParseBoolean(v: Js): Option<bool> {
    match v
    case Bool(b) => Some(b)
    case Num(n) => if n == Finite(1.0) then Some(true) else if n == Finite(0.0) then Some(false) else None
    case Str(s) =>
      var t := Lower(Trim(s));
      if SaysYes(t) then Some(true) else if SaysNo(t) then Some(false) else None
    case _ => None
  }

  /** `parseBetAmount`: the amount as a canonical decimal string. */
  function ParseAmount(v: Js, positive: bool): Option<string> {
    var amount :=
      match v
      case Big(i) => Some(i)
      case Num(n) => if IsSafeInteger(n) then Some(n.value.Floor) else None
      case Str(s) => if IsDigits(s) then Some(NumberValue(s) as int) else None
      case _ => None;
    if amount.None? || amount.value < 0 || (positive && amount.value == 0) then None else Some(Decimal(amount.value))
  }

  function ParsePoints(c: Conversions, v: Js, fallback: nat, least: nat): Option<nat> {
    if Nullish(v) then Some(fallback)
    else
      var n := ToNumber(c, v);
      if IsSafeInteger(n) && n.value.Floor >= least then Some(n.value.Floor) else None
  }

  function ParseDisplayName(v: Js): Option<Option<string>> {
    if Nullish(v) then Some(None)
    else if !v.Str? then None
    else
      var t := Trim(v.s);
      if t == "" then Some(None) else if Utf16Length(t) > DISPLAY_NAME_MAX then None else Some(Some(t))
  }

  // ----- payloads -----

  datatype Kind = MarketCreated | MarketResolved | MarketCancelled | BetPlaced | ReferralReward | ReferralRegistered

  datatype Payload =
    | Created(marketId: nat, question: string, category: string, endTime: nat, creator: string, imageUrl: Option<string>)
    | Resolved(marketId: nat, outcome: bool)
    | Cancelled(marketId: nat)
    | Bet(marketId: nat, bettor: string, isYes: bool, amount: string, netAmount: string, fee: Option<string>,
          isIncrease: Option<bool>)
    | Reward(referrer: string, points: nat)
    | Registered(user: string, displayName: Option<string>, referrerOf: Option<string>, welcomePoints: nat, referrerPoints: nat)

  /** The names of the tuple's places, in order. */
  function TupleFields(kind: Kind): seq<Field> {
    match kind
    case MarketCreated => [MarketIdField, QuestionField, CategoryField, EndTimeField, CreatorField, ImageUrlField]
    case MarketResolved => [MarketIdField, OutcomeField]
    case MarketCancelled => [MarketIdField]
    case BetPlaced => [MarketIdField, BettorField, IsYesField, AmountField, NetAmountField, FeeField, IsIncreaseField]
    case ReferralReward => [ReferrerField, PointsField]
    case ReferralRegistered => [UserField, DisplayNameField, ReferrerField]
  }

  /** The field names an object may have, for the schemas that look. */
  function AllowedFields(kind: Kind): Option<set<Field>> {
    match kind
    case MarketCreated => Some({MarketIdField, QuestionField, CategoryField, EndTimeField, CreatorField, ImageUrlField})
    case MarketResolved => Some({MarketIdField, OutcomeField})
    case MarketCancelled => Some({MarketIdField})
    case BetPlaced => Some({MarketIdField, BettorField, UserField, IsYesField, AmountField, GrossAmountField, GrossField,
                            NetAmountField, NetField, FeeField, IsIncreaseField})
    case ReferralReward => None
    case ReferralRegistered => None
  }

  /** The tuple's places as fields; places past its end are undefined. */
  function FromTuple(names: seq<Field>, items: seq<Js>): map<Field, Js> {
    if names == [] then map[] else FromTuple(Front(names), items)[Last(names) := Item(items, |names| - 1)]
  }

  /** The candidate record: a tuple by its places, an object with no unknown field as it is. */
  function Candidate(kind: Kind, v: Js): Option<map<Field, Js>> {
    match v
    case Arr(items) =>
      if kind.BetPlaced? && |items| != 7 then None else Some(FromTuple(TupleFields(kind), items))
    case Obj(fields) =>
      if AllowedFields(kind).Some? && !(fields.Keys <= AllowedFields(kind).value) then None else Some(fields)
    case _ => None
  }

  /** What the schema reads of the record, after `??`. */
  datatype Read =
    | ReadCreated(marketId: Js, question: Js, category: Js, endTime: Js, creator: Js, imageUrl: Js)
    | ReadResolved(marketId: Js, outcome: Js)
    | ReadCancelled(marketId: Js)
    | ReadBet(marketId: Js, bettor: Js, isYes: Js, gross: Js, net: Js, fee: Js, isIncrease: Js)
    | ReadReward(referrer: Js, points: Js)
    | ReadRegistered(user: Js, displayName: Js, referrer: Js, welcome: Js, bonus: Js)

  function First2(m: map<Field, Js>, a: Field, b: Field): Js { Coalesce(Get(m, a), Get(m, b)) }

  function First3(m: map<Field, Js>, a: Field, b: Field, c: Field): Js { Coalesce(First2(m, a, b), Get(m, c)) }

  function ReadFields(kind: Kind, m: map<Field, Js>): Read {
    match kind
    case MarketCreated =>
      ReadCreated(Get(m, MarketIdField), Get(m, QuestionField), Get(m, CategoryField), Get(m, EndTimeField), Get(m, CreatorField),
                  Get(m, ImageUrlField))
    case MarketResolved => ReadResolved(Get(m, MarketIdField), Get(m, OutcomeField))
    case MarketCancelled => ReadCancelled(Get(m, MarketIdField))
    case BetPlaced =>
      ReadBet(Get(m, MarketIdField), First2(m, BettorField, UserField), Get(m, IsYesField),
              First3(m, GrossAmountField, GrossField, AmountField), First3(m, NetAmountField, NetField, AmountField),
              Get(m, FeeField), Get(m, IsIncreaseField))
    case ReferralReward => ReadReward(Get(m, ReferrerField), Get(m, PointsField))
    case ReferralRegistered =>
      ReadRegistered(First3(m, UserField, AddressField, RegistrantField), First3(m, DisplayNameField, CamelDisplayNameField, NameField),
                     First2(m, ReferrerField, ReferrerAddressField),
                     First3(m, WelcomeBonusPointsField, WelcomePointsField, PointsField),
                     First3(m, ReferrerBonusPointsField, BonusPointsField, ReferralPointsField))
  }

  function ParseBet(r: Read): Option<Payload>
    requires r.ReadBet?
  {
    var amount, net := ParseAmount(r.gross, true), ParseAmount(r.net, true);
    var fee := if Nullish(r.fee) then Some(None) else WrapSome(ParseAmount(r.fee, false));
    var increase := if Nullish(r.isIncrease) then Some(None) else WrapSome(ParseBoolean(r.isIncrease));
    var id, bettor, isYes := ParseUnsigned(r.marketId), ParseAddress(r.bettor), ParseBoolean(r.isYes);
    if amount.None? || net.None? || fee.None? || increase.None? || id.None? || bettor.None? || isYes.None? then None
    else if NumberOf(net.value) > NumberOf(amount.value) then None
    else if fee.value.Some? && NumberOf(net.value) + NumberOf(fee.value.value) > NumberOf(amount.value) then None
    else Some(Bet(id.value, bettor.value, isYes.value, amount.value, net.value, fee.value, increase.value))
  }

  /** `BigInt(text)` of a canonical amount. */
  function NumberOf(s: string): nat { if IsDigits(s) then NumberValue(s) else 0 }

  function WrapSome<T>(x: Option<T>): Option<Option<T>> { if x.Some? then Some(Some(x.value)) else None }

  function ParseRegistered(c: Conversions, r: Read): Option<Payload>
    requires r.ReadRegistered?
  {
    var user, name := ParseAddress(r.user), ParseDisplayName(r.displayName);
    var referrer := if Nullish(r.referrer) then Some(None) else WrapSome(ParseAddress(r.referrer));
    var welcome, bonus := ParsePoints(c, r.welcome, DEFAULT_POINTS, 0), ParsePoints(c, r.bonus, DEFAULT_POINTS, 0);
    if user.None? || name.None? || referrer.None? || welcome.None? || bonus.None? then None
    else if referrer.value == user then None
    else Some(Registered(user.value, name.value, referrer.value, welcome.value, bonus.value))
  }

  function ParseCreated(c: Conversions, r: Read): Option<Payload>
    requires r.ReadCreated?
  {
    var id, question, category := ParseUnsigned(r.marketId), ParseQuestion(r.question), ParseCategory(c, r.category);
    var end, creator, image := ParseUnsigned(r.endTime), ParseAddress(r.creator), ParseImageUrl(r.imageUrl);
    if id.None? || question.None? || category.None? || end.None? || creator.None? || image.None? then None
    else Some(Created(id.value, question.value, category.value, end.value, creator.value, image.value))
  }

  function ParseRead(c: Conversions, r: Read): Option<Payload> {
    match r
    case ReadCreated(_, _, _, _, _, _) => ParseCreated(c, r)
    case ReadResolved(marketId, outcome) =>
      var id, o := ParseUnsigned(marketId), ParseBoolean(outcome);
      if id.None? || o.None? then None else Some(Resolved(id.value, o.value))
    case ReadCancelled(marketId) =>
      var id := ParseUnsigned(marketId);
      if id.None? then None else Some(Cancelled(id.value))
    case ReadBet(_, _, _, _, _, _, _) => ParseBet(r)
    case ReadReward(referrer, points) =>
      var who, p := ParseAddress(referrer), ParsePoints(c, points, DEFAULT_REWARD, 1);
      if who.None? || p.None? then None else Some(Reward(who.value, p.value))
    case ReadRegistered(_, _, _, _, _) => ParseRegistered(c, r)
  }

  /** `parseEventPayload(kind, v)`. */
  function Parse(c: Conversions, kind: Kind, v: Js): Option<Payload> {
    match Candidate(kind, v)
    case None => None
    case Some(m) => ParseRead(c, ReadFields(kind, m))
  }

  // ----- JSON -----

  /** What comes back of `v` after `JSON.stringify` with bigints as decimal strings, storage and
      `JSON.parse`. A container drops an undefined field and stores an undefined place as null. */
  function Json(v: Js): Js {
    match v
    case Num(n) => if n.Finite? then v else Null
    case Big(i) => Str(BigText(i))
    case Arr(items) =>
      Arr(seq(|items|, i requires 0 <= i < |items| => if items[i].Undefined? then Null else Json(items[i])))
    case Obj(fields) => Obj(map k | k in fields && !fields[k].Undefined? :: Json(fields[k]))
    case _ => v
  }

  /** What storage can do to a value the schema reads: it is carried as JSON, one kind of nothing becomes
      the other, or it was a number JSON cannot carry. */
  predicate Carried(v: Js, w: Js) {
    || w == Json(v)
    || (Nullish(v) && Nullish(w))
    || (v.Num? && !v.n.Finite?)
  }

  lemma CarriedCoalesce(a: Js, b: Js, a': Js, b': Js)
    requires Carried(a, a') && Carried(b, b')
    ensures Carried(Coalesce(a, b), Coalesce(a', b'))
  {
  }

  lemma CarriedItem(items: seq<Js>, i: nat)
    ensures Carried(Item(items, i), Item(Json(Arr(items)).items, i))
  {
  }

  lemma CarriedField(fields: map<Field, Js>, key: Field)
    ensures Carried(Get(fields, key), Get(Json(Obj(fields)).fields, key))
  {
  }

  ghost predicate CarriedMap(m: map<Field, Js>, w: map<Field, Js>) {
    forall key :: CarriedAt(m, w, key)
  }

  predicate CarriedAt(m: map<Field, Js>, w: map<Field, Js>, key: Field) { Carried(Get(m, key), Get(w, key)) }

  lemma CarriedUpdate(m: map<Field, Js>, w: map<Field, Js>, name: Field, v: Js, v': Js)
    requires CarriedMap(m, w) && Carried(v, v')
    ensures CarriedMap(m[name := v], w[name := v'])
  {
    var m', w' := m[name := v], w[name := v'];
    forall key ensures CarriedAt(m', w', key) {
      assert CarriedAt(m, w, key);
    }
  }

  lemma {:induction false} CarriedTuple(names: seq<Field>, items: seq<Js>)
    ensures CarriedMap(FromTuple(names, items), FromTuple(names, Json(Arr(items)).items))
  {
    if names != [] {
      CarriedTuple(Front(names), items);
      CarriedItem(items, |names| - 1);
      var stored := Json(Arr(items)).items;
      CarriedUpdate(FromTuple(Front(names), items), FromTuple(Front(names), stored), Last(names),
                    Item(items, |names| - 1), Item(stored, |names| - 1));
    }
  }

  lemma CarriedCandidate(kind: Kind, v: Js)
    requires Candidate(kind, v).Some?
    ensures Candidate(kind, Json(v)).Some?
    ensures CarriedMap(Candidate(kind, v).value, Candidate(kind, Json(v)).value)
  {
    if v.Arr? {
      CarriedTuple(TupleFields(kind), v.items);
    } else {
      var fields, stored := v.fields, Json(v).fields;
      assert stored.Keys <= fields.Keys;
      forall key ensures CarriedAt(fields, stored, key) {
        CarriedField(fields, key);
      }
    }
  }

  /** An array's text survives, unless it has a comma or is that of a number that is not finite. */
  lemma {:induction false} TextCarried(c: Conversions, v: Js)
    requires !v.Undefined?
    ensures Text(c, Json(v)) == Text(c, v) || ',' in Text(c, v) || IsNonFiniteText(Text(c, v))
    decreases v
  {
    if v.Arr? && |v.items| >= 2 {
      var head := if Nullish(v.items[0]) then "" else Text(c, v.items[0]);
      assert Text(c, v) == head + "," + ItemsText(c, v.items[1..]);
      assert (head + "," + ItemsText(c, v.items[1..]))[|head|] == ',';
    } else if v.Arr? && |v.items| == 1 && !v.items[0].Undefined? {
      TextCarried(c, v.items[0]);
      if Nullish(Json(v.items[0])) && !Nullish(v.items[0]) {
        assert v.items[0].Num?;
      }
    }
  }

  lemma CategoriesArePlain(s: string)
    requires s in CATEGORIES
    ensures ',' !in s && !IsNonFiniteText(s)
  {
    assert CATEGORIES == ["Crypto", "Sports", "Politics", "Entertainment", "Science", "Other"];
    assert s[0] != 'N' && s[0] != 'I' && s[0] != '-';
  }

  // Every field parser gives the carried value the result it gave the value.

  lemma CarriedUnsigned(v: Js, w: Js)
    requires Carried(v, w) && ParseUnsigned(v).Some?
    ensures ParseUnsigned(w) == ParseUnsigned(v)
  {
  }

  lemma CarriedBoolean(v: Js, w: Js)
    requires Carried(v, w) && ParseBoolean(v).Some?
    ensures ParseBoolean(w) == ParseBoolean(v)
  {
  }

  lemma CarriedAmount(v: Js, w: Js, positive: bool)
    requires Carried(v, w) && ParseAmount(v, positive).Some?
    ensures ParseAmount(w, positive) == ParseAmount(v, positive)
  {
    if v.Big? {
      DecimalValue(v.i);
    }
  }

  lemma CarriedCategory(c: Conversions, v: Js, w: Js)
    requires Carried(v, w) && ParseCategory(c, v).Some?
    ensures ParseCategory(c, w) == ParseCategory(c, v)
  {
    var s := Text(c, v);
    CategoriesArePlain(s);
    if !Nullish(v) {
      TextCarried(c, v);
    }
  }

  lemma CarriedPoints(c: Conversions, v: Js, w: Js, fallback: nat, least: nat)
    requires Coherent(c) && Carried(v, w) && ParsePoints(c, v, fallback, least).Some?
    ensures ParsePoints(c, w, fallback, least) == ParsePoints(c, v, fallback, least)
  {
    if v.Arr? {
      TextCarried(c, v);
    }
  }

  predicate SameShape(r: Read, q: Read) {
    match r
    case ReadCreated(_, _, _, _, _, _) =>
      q.ReadCreated? && Carried(r.marketId, q.marketId) && Carried(r.question, q.question)
      && Carried(r.category, q.category) && Carried(r.endTime, q.endTime) && Carried(r.creator, q.creator)
      && Carried(r.imageUrl, q.imageUrl)
    case ReadResolved(_, _) => q.ReadResolved? && Carried(r.marketId, q.marketId) && Carried(r.outcome, q.outcome)
    case ReadCancelled(_) => q.ReadCancelled? && Carried(r.marketId, q.marketId)
    case ReadBet(_, _, _, _, _, _, _) =>
      q.ReadBet? && Carried(r.marketId, q.marketId) && Carried(r.bettor, q.bettor) && Carried(r.isYes, q.isYes)
      && Carried(r.gross, q.gross) && Carried(r.net, q.net) && Carried(r.fee, q.fee) && Carried(r.isIncrease, q.isIncrease)
    case ReadReward(_, _) => q.ReadReward? && Carried(r.referrer, q.referrer) && Carried(r.points, q.points)
    case ReadRegistered(_, _, _, _, _) =>
      q.ReadRegistered? && Carried(r.user, q.user) && Carried(r.displayName, q.displayName)
      && Carried(r.referrer, q.referrer) && Carried(r.welcome, q.welcome) && Carried(r.bonus, q.bonus)
  }

  lemma CarriedFirst2(m: map<Field, Js>, w: map<Field, Js>, a: Field, b: Field)
    requires CarriedMap(m, w)
    ensures Carried(First2(m, a, b), First2(w, a, b))
  {
    assert CarriedAt(m, w, a) && CarriedAt(m, w, b);
    CarriedCoalesce(Get(m, a), Get(m, b), Get(w, a), Get(w, b));
  }

  lemma CarriedFirst3(m: map<Field, Js>, w: map<Field, Js>, a: Field, b: Field, c: Field)
    requires CarriedMap(m, w)
    ensures Carried(First3(m, a, b, c), First3(w, a, b, c))
  {
    assert CarriedAt(m, w, c);
    CarriedFirst2(m, w, a, b);
    CarriedCoalesce(First2(m, a, b), Get(m, c), First2(w, a, b), Get(w, c));
  }

  lemma CarriedRead(kind: Kind, m: map<Field, Js>, w: map<Field, Js>)
    requires CarriedMap(m, w)
    ensures SameShape(ReadFields(kind, m), ReadFields(kind, w))
  {
    assert forall key :: CarriedAt(m, w, key) ==> Carried(Get(m, key), Get(w, key));
    match kind
    case BetPlaced =>
      CarriedFirst2(m, w, BettorField, UserField);
      CarriedFirst3(m, w, GrossAmountField, GrossField, AmountField);
      CarriedFirst3(m, w, NetAmountField, NetField, AmountField);
    case ReferralRegistered =>
      CarriedFirst3(m, w, UserField, AddressField, RegistrantField);
      CarriedFirst3(m, w, DisplayNameField, CamelDisplayNameField, NameField);
      CarriedFirst2(m, w, ReferrerField, ReferrerAddressField);
      CarriedFirst3(m, w, WelcomeBonusPointsField, WelcomePointsField, PointsField);
      CarriedFirst3(m, w, ReferrerBonusPointsField, BonusPointsField, ReferralPointsField);
    case _ =>
  }

  lemma ParseReadCarried(c: Conversions, r: Read, q: Read)
    requires Coherent(c) && SameShape(r, q) && ParseRead(c, r).Some?
    ensures ParseRead(c, q) == ParseRead(c, r)
  {
    match r
    case ReadCreated(_, _, _, _, _, _) =>
      CarriedUnsigned(r.marketId, q.marketId);
      CarriedCategory(c, r.category, q.category);
      CarriedUnsigned(r.endTime, q.endTime);
    case ReadResolved(_, _) =>
      CarriedUnsigned(r.marketId, q.marketId);
      CarriedBoolean(r.outcome, q.outcome);
    case ReadCancelled(_) =>
      CarriedUnsigned(r.marketId, q.marketId);
    case ReadBet(_, _, _, _, _, _, _) =>
      BetCarried(r, q);
    case ReadReward(_, _) =>
      CarriedPoints(c, r.points, q.points, DEFAULT_REWARD, 1);
    case ReadRegistered(_, _, _, _, _) =>
      CarriedPoints(c, r.welcome, q.welcome, DEFAULT_POINTS, 0);
      CarriedPoints(c, r.bonus, q.bonus, DEFAULT_POINTS, 0);
  }

  lemma BetCarried(r: Read, q: Read)
    requires r.ReadBet? && SameShape(r, q) && ParseBet(r).Some?
    ensures ParseBet(q) == ParseBet(r)
  {
    CarriedUnsigned(r.marketId, q.marketId);
    CarriedBoolean(r.isYes, q.isYes);
    CarriedAmount(r.gross, q.gross, true);
    CarriedAmount(r.net, q.net, true);
    CarriedFee(r.fee, q.fee);
    CarriedIncrease(r.isIncrease, q.isIncrease);
  }

  lemma CarriedFee(v: Js, w: Js)
    requires Carried(v, w) && (Nullish(v) || ParseAmount(v, false).Some?)
    ensures Nullish(w) == Nullish(v) && (!Nullish(v) ==> ParseAmount(w, false) == ParseAmount(v, false))
  {
    if !Nullish(v) {
      CarriedAmount(v, w, false);
    }
  }

  lemma CarriedIncrease(v: Js, w: Js)
    requires Carried(v, w) && (Nullish(v) || ParseBoolean(v).Some?)
    ensures Nullish(w) == Nullish(v) && (!Nullish(v) ==> ParseBoolean(w) == ParseBoolean(v))
  {
    if !Nullish(v) {
      CarriedBoolean(v, w);
    }
  }

  /** Any payload a schema accepts is accepted, with an equal result, after it has been stored as JSON
      with its bigints as decimal strings. */
  lemma AcceptedSurvivesJson(c: Conversions, kind: Kind, v: Js)
    requires Coherent(c) && Parse(c, kind, v).Some?
    ensures Parse(c, kind, Json(v)) == Parse(c, kind, v)
  {
    CarriedCandidate(kind, v);
    var m, w := Candidate(kind, v).value, Candidate(kind, Json(v)).value;
    CarriedRead(kind, m, w);
    ParseReadCarried(c, ReadFields(kind, m), ReadFields(kind, w));
  }

  /** No bigint, no number that is not finite, and nothing undefined inside. */
  predicate Plain(v: Js) {
    match v
    case Num(n) => n.Finite?
    case Big(_) => false
    case Arr(items) => forall i | 0 <= i < |items| :: !items[i].Undefined? && Plain(items[i])
    case Obj(fields) => forall k | k in fields :: !fields[k].Undefined? && Plain(fields[k])
    case _ => true
  }

  /** Exactly the plain values are stored as they are... */
  lemma {:induction false} StoredAsIsIff(v: Js)
    ensures Json(v) == v <==> Plain(v)
    decreases v
  {
    match v
    case Arr(items) =>
      forall i | 0 <= i < |items| ensures Json(items[i]) == items[i] <==> Plain(items[i]) {
        StoredAsIsIff(items[i]);
      }
      var stored := Json(v).items;
      assert forall i | 0 <= i < |items| :: stored[i] == if items[i].Undefined? then Null else Json(items[i]);
      assert stored == items <==> forall i | 0 <= i < |items| :: stored[i] == items[i];
    case Obj(fields) =>
      forall k | k in fields ensures Json(fields[k]) == fields[k] <==> Plain(fields[k]) {
        StoredAsIsIff(fields[k]);
      }
      var stored := Json(v).fields;
      assert forall k | k in fields :: k in stored <==> !fields[k].Undefined?;
      if Plain(v) {
        assert stored == fields;
      }
      if stored == fields {
        assert forall k | k in fields :: k in stored && stored[k] == Json(fields[k]);
      }
    case _ =>
  }

  /** ...so a refused payload can only come to be accepted if it holds one of the values that are not. */
  lemma PlainStaysRefused(c: Conversions, kind: Kind, v: Js)
    requires Parse(c, kind, v).None? && Parse(c, kind, Json(v)).Some?
    ensures !Plain(v)
  {
    StoredAsIsIff(v);
  }

  /** The two fields of a market resolution, in a tuple or an object. */
  function ResolutionField(v: Js, key: Field): Js {
    match v
    case Arr(items) => Item(items, if key == MarketIdField then 0 else 1)
    case Obj(fields) => Get(fields, key)
    case _ => Undefined
  }

  lemma ResolutionIff(c: Conversions, v: Js)
    ensures Parse(c, MarketResolved, v).Some? <==>
              && (v.Arr? || (v.Obj? && v.fields.Keys <= {MarketIdField, OutcomeField}))
              && ParseUnsigned(ResolutionField(v, MarketIdField)).Some? && ParseBoolean(ResolutionField(v, OutcomeField)).Some?
  {
    if v.Arr? {
      var names := TupleFields(MarketResolved);
      assert Front(names) == [MarketIdField] && Front(Front(names)) == [];
      assert FromTuple(Front(names), v.items) == map[MarketIdField := Item(v.items, 0)];
    }
  }

  predicate StoredAs(v: Js, w: Js) { w == Json(v) || (Nullish(v) && Nullish(w)) }

  lemma ResolutionFieldStored(v: Js, key: Field)
    requires v.Arr? || v.Obj?
    ensures StoredAs(ResolutionField(v, key), ResolutionField(Json(v), key))
  {
  }

  /** When a stored resolution is accepted: the schema accepts it as it was, but for outcomes that were
      the bigints 0 and 1, and for further fields that were undefined. */
  lemma ResolvedOnceStoredIff(c: Conversions, v: Js)
    ensures var outcome := ResolutionField(v, OutcomeField);
            Parse(c, MarketResolved, Json(v)).Some? <==>
              && (v.Arr? || (v.Obj? && forall k | k in v.fields :: k in {MarketIdField, OutcomeField} || v.fields[k].Undefined?))
              && ParseUnsigned(ResolutionField(v, MarketIdField)).Some?
              && (ParseBoolean(outcome).Some? || outcome == Big(0) || outcome == Big(1))
  {
    ResolutionIff(c, Json(v));
    if v.Arr? || v.Obj? {
      ResolutionFieldStored(v, MarketIdField);
      ResolutionFieldStored(v, OutcomeField);
      StoredUnsigned(ResolutionField(v, MarketIdField), ResolutionField(Json(v), MarketIdField));
      StoredOutcome(ResolutionField(v, OutcomeField), ResolutionField(Json(v), OutcomeField));
      if v.Obj? {
        StoredKeys(v.fields, {MarketIdField, OutcomeField});
      }
    }
  }

  lemma StoredKeys(fields: map<Field, Js>, known: set<Field>)
    ensures Json(Obj(fields)).fields.Keys <= known <==> forall k | k in fields :: k in known || fields[k].Undefined?
  {
    var stored := Json(Obj(fields)).fields;
    assert forall k :: k in stored <==> k in fields && !fields[k].Undefined?;
  }

  lemma StoredUnsigned(v: Js, w: Js)
    requires StoredAs(v, w)
    ensures ParseUnsigned(w) == ParseUnsigned(v)
  {
  }

  lemma StoredOutcome(v: Js, w: Js)
    requires StoredAs(v, w)
    ensures ParseBoolean(w).Some? <==> ParseBoolean(v).Some? || v == Big(0) || v == Big(1)
  {
    if v.Big? {
      BigOutcomeIff(v.i);
    }
  }

  lemma BigOutcomeIff(i: int)
    ensures ParseBoolean(Str(BigText(i))).Some? <==> i == 0 || i == 1
  {
    NumeralIsBooleanIff(BigText(i));
    OneDigitText(i);
  }

  predicate Numeral(s: string) { s != "" && forall k | 0 <= k < |s| :: IsDigit(s[k]) || s[k] == '-' }

  lemma NumeralIsBooleanIff(t: string)
    requires Numeral(t)
    ensures ParseBoolean(Str(t)).Some? <==> t == "1" || t == "0"
  {
    TrimNothing(t);
    LowerKeeps(t);
    assert "true"[0] == 't' && "t"[0] == 't' && "yes"[0] == 'y' && "y"[0] == 'y';
    assert "false"[0] == 'f' && "f"[0] == 'f' && "no"[0] == 'n' && "n"[0] == 'n';
  }

  lemma {:induction false} LowerKeeps(s: string)
    requires forall k | 0 <= k < |s| :: !('A' <= s[k] <= 'Z')
    ensures Lower(s) == s
  {
    if s != "" {
      LowerKeeps(s[1..]);
      assert s == [s[0]] + s[1..];
    }
  }

  lemma OneDigitText(i: int)
    ensures Numeral(BigText(i))
    ensures BigText(i) == "1" <==> i == 1
    ensures BigText(i) == "0" <==> i == 0
  {
    var t := Decimal(if i < 0 then -i else i);
    forall k | 0 <= k < |t| ensures IsDigit(t[k]) {
      assert t[k] in t;
    }
    DecimalValue(if i < 0 then -i else i);
    assert NumberValue("1") == 1 && NumberValue("0") == 0 by {
      assert Front("1") == "" && Front("0") == "";
    }
  }

  /** So a refused payload can become an accepted one: the outcome `1n` of a resolution. */
  lemma RefusedMayBecomeAccepted(c: Conversions)
    ensures var v := Arr([Num(Finite(7.0)), Big(1)]);
            Parse(c, MarketResolved, v).None? && Parse(c, MarketResolved, Json(v)).Some?
  {
    var v := Arr([Num(Finite(7.0)), Big(1)]);
    assert (7.0).Floor == 7;
    ResolutionIff(c, v);
    ResolvedOnceStoredIff(c, v);
  }

  // ----- fixed points -----

  /** A result as a JavaScript value. */
  function AsValue(p: Payload): Js {
    match p
    case Created(id, question, category, end, creator, image) =>
      Obj(map[MarketIdField := AsNum(id), QuestionField := Str(question), CategoryField := Str(category), EndTimeField := AsNum(end),
              CreatorField := Str(creator), ImageUrlField := OrUndefined(image)])
    case Resolved(id, outcome) => Obj(map[MarketIdField := AsNum(id), OutcomeField := Bool(outcome)])
    case Cancelled(id) => Obj(map[MarketIdField := AsNum(id)])
    case Bet(id, bettor, isYes, amount, net, fee, increase) =>
      Obj(map[MarketIdField := AsNum(id), BettorField := Str(bettor), IsYesField := Bool(isYes), AmountField := Str(amount),
              NetAmountField := Str(net), FeeField := OrUndefined(fee),
              IsIncreaseField := if increase.Some? then Bool(increase.value) else Undefined])
    case Reward(referrer, points) => Obj(map[ReferrerField := Str(referrer), PointsField := AsNum(points)])
    case Registered(user, name, referrer, welcome, bonus) =>
      Obj(map[UserField := Str(user), DisplayNameField := OrNull(name), ReferrerField := OrNull(referrer),
              WelcomePointsField := AsNum(welcome), ReferrerPointsField := AsNum(bonus)])
  }

  function AsNum(n: nat): Js { Num(Finite(n as real)) }

  function OrUndefined(s: Option<string>): Js { if s.Some? then Str(s.value) else Undefined }

  function OrNull(s: Option<string>): Js { if s.Some? then Str(s.value) else Null }

  /** What every result satisfies. */
  ghost predicate Canonical(p: Payload) {
    match p
    case Created(id, question, category, end, creator, _) =>
      id <= MAX_SAFE && end <= MAX_SAFE && Trim(question) != "" && category in CATEGORIES && IsAddress(creator)
    case Resolved(id, _) => id <= MAX_SAFE
    case Cancelled(id) => id <= MAX_SAFE
    case Bet(id, bettor, _, amount, net, fee, _) =>
      && id <= MAX_SAFE && IsAddress(bettor)
      && CanonicalAmount(amount) && CanonicalAmount(net) && (fee.Some? ==> CanonicalAmount(fee.value))
      && 0 < NumberOf(net) && NumberOf(net) + (if fee.Some? then NumberOf(fee.value) else 0) <= NumberOf(amount)
    case Reward(referrer, points) => IsAddress(referrer) && 1 <= points <= MAX_SAFE
    case Registered(user, name, referrer, welcome, bonus) =>
      && IsAddress(user) && welcome <= MAX_SAFE && bonus <= MAX_SAFE
      && (name.Some? ==> name.value != "" && Trim(name.value) == name.value && Utf16Length(name.value) <= DISPLAY_NAME_MAX)
      && (referrer.Some? ==> IsAddress(referrer.value) && referrer.value != user)
  }

  predicate CanonicalAmount(s: string) { IsDigits(s) && s == Decimal(NumberValue(s)) }

  lemma AmountIsCanonical(v: Js, positive: bool)
    ensures var r := ParseAmount(v, positive);
            r.Some? ==> CanonicalAmount(r.value) && (positive ==> NumberOf(r.value) > 0)
    ensures CanonicalOf(v, positive)
  {
    match v
    case Big(i) => if i >= 0 { DecimalValue(i); }
    case Num(n) => if IsSafeInteger(n) && n.value.Floor >= 0 { DecimalValue(n.value.Floor); }
    case Str(s) => if IsDigits(s) { DecimalValue(NumberValue(s)); }
    case _ =>
  }

  /** A canonical amount reads back as itself. */
  predicate CanonicalOf(v: Js, positive: bool) {
    v.Str? && CanonicalAmount(v.s) && (positive ==> NumberOf(v.s) > 0) ==> ParseAmount(v, positive) == Some(v.s)
  }

  /** The bounds every accepted payload meets: ids and points are safe integers, addresses are
      addresses, and of a bet net plus fee is positive and does not pass the gross amount. */
  lemma ResultsAreCanonical(c: Conversions, kind: Kind, v: Js)
    requires Parse(c, kind, v).Some?
    ensures Canonical(Parse(c, kind, v).value)
  {
    ReadIsCanonical(c, ReadFields(kind, Candidate(kind, v).value));
  }

  lemma ReadIsCanonical(c: Conversions, r: Read)
    requires ParseRead(c, r).Some?
    ensures Canonical(ParseRead(c, r).value)
  {
    match r
    case ReadBet(_, _, _, _, _, _, _) => BetIsCanonical(r);
    case ReadRegistered(_, _, _, _, _) => RegisteredIsCanonical(c, r);
    case _ =>
  }

  lemma RegisteredIsCanonical(c: Conversions, r: Read)
    requires r.ReadRegistered? && ParseRegistered(c, r).Some?
    ensures Canonical(ParseRegistered(c, r).value)
  {
    if r.displayName.Str? {
      TrimTwice(r.displayName.s);
    }
  }

  lemma BetIsCanonical(r: Read)
    requires r.ReadBet? && ParseBet(r).Some?
    ensures Canonical(ParseBet(r).value)
  {
    AmountIsCanonical(r.gross, true);
    AmountIsCanonical(r.net, true);
    AmountIsCanonical(r.fee, false);
  }

  function KindOf(p: Payload): Kind {
    match p
    case Created(_, _, _, _, _, _) => MarketCreated
    case Resolved(_, _) => MarketResolved
    case Cancelled(_) => MarketCancelled
    case Bet(_, _, _, _, _, _, _) => BetPlaced
    case Reward(_, _) => ReferralReward
    case Registered(_, _, _, _, _) => ReferralRegistered
  }

  lemma SafeNumber(n: nat)
    requires n <= MAX_SAFE
    ensures IsSafeInteger(Finite(n as real)) && (n as real).Floor == n
  {
  }

  /** A parsed payload is a fixed point of its schema, except a registration whose referrer points are
      not the default: the schema does not read the field it writes them to. */
  lemma FixedPointIff(c: Conversions, kind: Kind, v: Js)
    requires Parse(c, kind, v).Some?
    ensures var p := Parse(c, kind, v).value;
            Parse(c, kind, AsValue(p)) == Some(p) <==> (p.Registered? ==> p.referrerPoints == DEFAULT_POINTS)
  {
    ResultsAreCanonical(c, kind, v);
    ResultHasItsKind(c, kind, v);
    ParseValue(c, Parse(c, kind, v).value);
  }

  lemma ResultHasItsKind(c: Conversions, kind: Kind, v: Js)
    requires Parse(c, kind, v).Some?
    ensures KindOf(Parse(c, kind, v).value) == kind
  {
    var m := Candidate(kind, v).value;
    ReadHasItsKind(c, kind, ReadFields(kind, m));
  }

  lemma ReadHasItsKind(c: Conversions, kind: Kind, r: Read)
    requires ParseRead(c, r).Some?
    requires match kind
             case MarketCreated => r.ReadCreated?
             case MarketResolved => r.ReadResolved?
             case MarketCancelled => r.ReadCancelled?
             case BetPlaced => r.ReadBet?
             case ReferralReward => r.ReadReward?
             case ReferralRegistered => r.ReadRegistered?
    ensures KindOf(ParseRead(c, r).value) == kind
  {
  }

  lemma ParseValue(c: Conversions, p: Payload)
    requires Canonical(p)
    ensures Parse(c, KindOf(p), AsValue(p)) == Some(if p.Registered? then p.(referrerPoints := DEFAULT_POINTS) else p)
  {
    ReadValue(p);
    ReadBack(c, p);
  }

  /** The fields that the schema of a result reads of the result. */
  function ReadOf(p: Payload): Read {
    match p
    case Created(id, question, category, end, creator, image) =>
      ReadCreated(AsNum(id), Str(question), Str(category), AsNum(end), Str(creator), OrUndefined(image))
    case Resolved(id, outcome) => ReadResolved(AsNum(id), Bool(outcome))
    case Cancelled(id) => ReadCancelled(AsNum(id))
    case Bet(id, bettor, isYes, amount, net, fee, increase) =>
      ReadBet(AsNum(id), Str(bettor), Bool(isYes), Str(amount), Str(net), OrUndefined(fee),
              if increase.Some? then Bool(increase.value) else Undefined)
    case Reward(referrer, points) => ReadReward(Str(referrer), AsNum(points))
    case Registered(user, name, referrer, welcome, _) =>
      ReadRegistered(Str(user), if name.Some? then Str(name.value) else Undefined,
                     if referrer.Some? then Str(referrer.value) else Undefined, AsNum(welcome), Undefined)
  }

  lemma ReadValue(p: Payload)
    ensures Candidate(KindOf(p), AsValue(p)) == Some(AsValue(p).fields)
    ensures ReadFields(KindOf(p), AsValue(p).fields) == ReadOf(p)
  {
    match p
    case Bet(_, _, _, _, _, _, _) => ReadBetValue(p);
    case Registered(_, _, _, _, _) => ReadRegisteredValue(p);
    case _ =>
  }

  lemma ReadBetValue(p: Payload)
    requires p.Bet?
    ensures AsValue(p).fields.Keys <= AllowedFields(BetPlaced).value
    ensures ReadFields(BetPlaced, AsValue(p).fields) == ReadOf(p)
  {
  }

  lemma ReadRegisteredValue(p: Payload)
    requires p.Registered?
    ensures ReadFields(ReferralRegistered, AsValue(p).fields) == ReadOf(p)
  {
  }

  lemma ReadBack(c: Conversions, p: Payload)
    requires Canonical(p)
    ensures ParseRead(c, ReadOf(p)) == Some(if p.Registered? then p.(referrerPoints := DEFAULT_POINTS) else p)
  {
    match p
    case Created(_, _, _, _, _, _) => ReadBackCreated(c, p);
    case Resolved(id, _) => SafeNumber(id);
    case Cancelled(id) => SafeNumber(id);
    case Bet(_, _, _, _, _, _, _) => ReadBackBet(p);
    case Reward(_, points) => SafeNumber(points);
    case Registered(_, _, _, _, _) => ReadBackRegistered(c, p);
  }

  lemma ReadBackCreated(c: Conversions, p: Payload)
    requires p.Created? && Canonical(p)
    ensures ParseCreated(c, ReadOf(p)) == Some(p)
  {
    SafeNumber(p.marketId);
    SafeNumber(p.endTime);
    assert Text(c, Str(p.category)) == p.category;
  }

  lemma ReadBackRegistered(c: Conversions, p: Payload)
    requires p.Registered? && Canonical(p)
    ensures ParseRegistered(c, ReadOf(p)) == Some(p.(referrerPoints := DEFAULT_POINTS))
  {
    var r := ReadOf(p);
    PointsBack(c, p.welcomePoints);
    DisplayNameBack(p.displayName);
    assert ParseAddress(r.user) == Some(p.user);
    assert ParsePoints(c, r.bonus, DEFAULT_POINTS, 0) == Some(DEFAULT_POINTS);
    assert p.referrerOf.Some? ==> ParseAddress(r.referrer) == p.referrerOf;
  }

  lemma PointsBack(c: Conversions, n: nat)
    requires n <= MAX_SAFE
    ensures ParsePoints(c, AsNum(n), DEFAULT_POINTS, 0) == Some(n)
  {
    SafeNumber(n);
  }

  lemma DisplayNameBack(name: Option<string>)
    requires name.Some? ==> name.value != "" && Trim(name.value) == name.value && Utf16Length(name.value) <= DISPLAY_NAME_MAX
    ensures ParseDisplayName(if name.Some? then Str(name.value) else Undefined) == Some(name)
  {
  }

  lemma ReadBackBet(p: Payload)
    requires p.Bet? && p.marketId <= MAX_SAFE && IsAddress(p.bettor)
    requires CanonicalAmount(p.amount) && CanonicalAmount(p.netAmount) && (p.fee.Some? ==> CanonicalAmount(p.fee.value))
    requires 0 < NumberOf(p.netAmount)
    requires NumberOf(p.netAmount) + (if p.fee.Some? then NumberOf(p.fee.value) else 0) <= NumberOf(p.amount)
    ensures ParseBet(ReadOf(p)) == Some(p)
  {
    SafeNumber(p.marketId);
    AmountIsCanonical(Str(p.amount), true);
    AmountIsCanonical(Str(p.netAmount), true);
    if p.fee.Some? {
      AmountIsCanonical(Str(p.fee.value), false);
    }
  }
}

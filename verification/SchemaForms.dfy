/**
  What the schemas of `indexer/src/schemas.ts` accept, said from the outside: place by place in a tuple,
  name by name in an object, and each value in any of its spellings.
 */
module SchemaForms {
  import opened JsText
  import opened Schemas
  import opened Wrappers
  import opened Sequences

  // ----- what a payload gives for a field -----

  predicate Has(fields: map<Field, Js>, name: Field) { name in fields && !Nullish(fields[name]) }

  /** The first of three names that is there with a value. */
  function Named(fields: map<Field, Js>, a: Field, b: Field, d: Field): Js {
    if Has(fields, a) then fields[a] else if Has(fields, b) then fields[b] else if Has(fields, d) then fields[d] else Undefined
  }

  /** In a tuple the item at place `i`, in an object the first of the names. */
  function Given3(v: Js, i: nat, a: Field, b: Field, d: Field): Js {
    match v
    case Arr(items) => Item(items, i)
    case Obj(fields) => Named(fields, a, b, d)
    case _ => Undefined
  }

  function Given2(v: Js, i: nat, a: Field, b: Field): Js { Given3(v, i, a, b, b) }

  function Given(v: Js, i: nat, a: Field): Js { Given3(v, i, a, a, a) }

  predicate NamesOnly(v: Js, names: set<Field>) { v.Arr? || (v.Obj? && v.fields.Keys <= names) }

  // ----- spellings -----

  predicate SpellsNumber(v: Js, n: nat) {
    n <= 9007199254740991 && (v == Num(Finite(n as real)) || v == Big(n) || (v.Str? && IsDigits(v.s) && NumberValue(v.s) == n))
  }

  predicate SpellsBool(v: Js, b: bool) {
    || v == Bool(b) || v == Num(Finite(if b then 1.0 else 0.0))
    || (v.Str? && Lower(Trim(v.s)) in if b then {"true", "t", "yes", "y", "1"} else {"false", "f", "no", "n", "0"})
  }

  /** An amount is the decimal text, without leading zeros, of a number that may be spelled in three ways. */
  predicate SpellsAmount(v: Js, s: string) {
    && CanonicalAmount(s)
    && var n := NumberValue(s);
       || v == Big(n) || (v == Num(Finite(n as real)) && n <= 9007199254740991)
       || (v.Str? && IsDigits(v.s) && NumberValue(v.s) == n)
  }

  predicate SpellsPoints(c: Conversions, v: Js, n: nat, fallback: nat) {
    if Nullish(v) then n == fallback else ToNumber(c, v) == Finite(n as real) && n <= 9007199254740991
  }

  predicate SpellsDisplayName(v: Js, name: Option<string>) {
    if Nullish(v) then name == None
    else v.Str? && if Trim(v.s) == "" then name == None else name == Some(Trim(v.s)) && Utf16Length(Trim(v.s)) <= 50
  }

  predicate SpellsOptional(v: Js, s: Option<string>) { if Nullish(v) then s == None else s.Some? && v == Str(s.value) }

  predicate SpellsCategory(c: Conversions, v: Js, s: string) {
    Text(c, v) == s && s in {"Crypto", "Sports", "Politics", "Entertainment", "Science", "Other"}
  }

  predicate SpellsAddress(v: Js, s: string) { v == Str(s) && IsAddress(s) }

  /** What is read spells the payload, and keeps the bounds between its fields. */
  predicate Spells(c: Conversions, r: Read, p: Payload) {
    match p
    case Created(id, question, category, end, creator, image) =>
      && r.ReadCreated? && SpellsNumber(r.marketId, id) && r.question == Str(question) && Trim(question) != ""
      && SpellsCategory(c, r.category, category) && SpellsNumber(r.endTime, end) && SpellsAddress(r.creator, creator)
      && SpellsOptional(r.imageUrl, image)
    case Resolved(id, outcome) => r.ReadResolved? && SpellsNumber(r.marketId, id) && SpellsBool(r.outcome, outcome)
    case Cancelled(id) => r.ReadCancelled? && SpellsNumber(r.marketId, id)
    case Bet(id, bettor, isYes, amount, net, fee, increase) =>
      && r.ReadBet? && SpellsNumber(r.marketId, id) && SpellsAddress(r.bettor, bettor) && SpellsBool(r.isYes, isYes)
      && SpellsAmount(r.gross, amount) && SpellsAmount(r.net, net)
      && (if fee.Some? then SpellsAmount(r.fee, fee.value) else Nullish(r.fee))
      && (if increase.Some? then SpellsBool(r.isIncrease, increase.value) else Nullish(r.isIncrease))
      && 0 < NumberOf(net) && NumberOf(net) + (if fee.Some? then NumberOf(fee.value) else 0) <= NumberOf(amount)
    case Reward(referrer, points) =>
      r.ReadReward? && SpellsAddress(r.referrer, referrer) && SpellsPoints(c, r.points, points, 3) && points > 0
    case Registered(user, name, referrer, welcome, bonus) =>
      && r.ReadRegistered? && SpellsAddress(r.user, user) && SpellsDisplayName(r.displayName, name)
      && SpellsOptional(r.referrer, referrer) && (referrer.Some? ==> IsAddress(referrer.value) && referrer.value != user)
      && SpellsPoints(c, r.welcome, welcome, 5) && SpellsPoints(c, r.bonus, bonus, 5)
  }

  lemma UnsignedIff(v: Js, n: nat)
    ensures ParseUnsigned(v) == Some(n) <==> SpellsNumber(v, n)
  {
    if v.Big? && v.i >= 0 {
      DecimalValue(v.i);
    }
    if v.Big? && v.i < 0 {
      assert BigText(v.i)[0] == '-' && BigText(v.i)[0] in BigText(v.i);
    }
  }

  lemma BooleanIff(v: Js, b: bool)
    ensures ParseBoolean(v) == Some(b) <==> SpellsBool(v, b)
  {
  }

  lemma AmountIff(v: Js, positive: bool, s: string)
    ensures ParseAmount(v, positive) == Some(s) <==> SpellsAmount(v, s) && (positive ==> NumberOf(s) > 0)
  {
    match v
    case Big(i) => if i >= 0 { DecimalValue(i); }
    case Num(n) => if IsSafeInteger(n) && n.value.Floor >= 0 { DecimalValue(n.value.Floor); }
    case Str(t) => if IsDigits(t) { DecimalValue(NumberValue(t)); }
    case _ =>
  }

  lemma PointsIff(c: Conversions, v: Js, fallback: nat, least: nat, n: nat)
    requires least <= fallback
    ensures ParsePoints(c, v, fallback, least) == Some(n) <==> SpellsPoints(c, v, n, fallback) && n >= least
  {
  }

  lemma CategoryIff(c: Conversions, v: Js, s: string)
    ensures ParseCategory(c, v) == Some(s) <==> SpellsCategory(c, v, s)
  {
    assert CATEGORIES[0] == "Crypto" && CATEGORIES[1] == "Sports" && CATEGORIES[2] == "Politics";
    assert CATEGORIES[3] == "Entertainment" && CATEGORIES[4] == "Science" && CATEGORIES[5] == "Other";
  }

  lemma ReadBetIff(c: Conversions, r: Read, p: Payload)
    requires r.ReadBet? && p.Bet?
    ensures ParseRead(c, r) == Some(p) <==> Spells(c, r, p)
  {
    UnsignedIff(r.marketId, p.marketId);
    BooleanIff(r.isYes, p.isYes);
    AmountIff(r.gross, true, p.amount);
    AmountIff(r.net, true, p.netAmount);
    if p.fee.Some? {
      AmountIff(r.fee, false, p.fee.value);
    }
    if p.isIncrease.Some? {
      BooleanIff(r.isIncrease, p.isIncrease.value);
    }
  }

  lemma ReadRegisteredIff(c: Conversions, r: Read, p: Payload)
    requires r.ReadRegistered? && p.Registered?
    ensures ParseRead(c, r) == Some(p) <==> Spells(c, r, p)
  {
    PointsIff(c, r.welcome, DEFAULT_POINTS, 0, p.welcomePoints);
    PointsIff(c, r.bonus, DEFAULT_POINTS, 0, p.referrerPoints);
  }

  lemma ReadCreatedIff(c: Conversions, r: Read, p: Payload)
    requires r.ReadCreated? && p.Created?
    ensures ParseRead(c, r) == Some(p) <==> Spells(c, r, p)
  {
    UnsignedIff(r.marketId, p.marketId);
    CategoryIff(c, r.category, p.category);
    UnsignedIff(r.endTime, p.endTime);
  }

  predicate OfKind(r: Read, kind: Kind) {
    match kind
    case MarketCreated => r.ReadCreated?
    case MarketResolved => r.ReadResolved?
    case MarketCancelled => r.ReadCancelled?
    case BetPlaced => r.ReadBet?
    case ReferralReward => r.ReadReward?
    case ReferralRegistered => r.ReadRegistered?
  }

  lemma ReadIff(c: Conversions, r: Read, p: Payload)
    requires OfKind(r, KindOf(p))
    ensures ParseRead(c, r) == Some(p) <==> Spells(c, r, p)
  {
    match p
    case Created(_, _, _, _, _, _) => ReadCreatedIff(c, r, p);
    case Resolved(id, outcome) => UnsignedIff(r.marketId, id); BooleanIff(r.outcome, outcome);
    case Cancelled(id) => UnsignedIff(r.marketId, id);
    case Bet(_, _, _, _, _, _, _) => ReadBetIff(c, r, p);
    case Reward(_, points) => PointsIff(c, r.points, DEFAULT_REWARD, 1, points);
    case Registered(_, _, _, _, _) => ReadRegisteredIff(c, r, p);
  }

  /** The letters and digits of base 32 as in section 6 of RFC 4648. */
  predicate IsBase32(c: char) {
    c in {'A', 'B', 'C', 'D', 'E', 'F', 'G', 'H', 'I', 'J', 'K', 'L', 'M', 'N', 'O', 'P', 'Q', 'R', 'S', 'T', 'U', 'V', 'W', 'X',
          'Y', 'Z', '2', '3', '4', '5', '6', '7'}
  }

  lemma Base32Iff(c: char)
    ensures IsBase32(c) <==> 'A' <= c <= 'Z' || '2' <= c <= '7'
  {
    var n := c as int;
    assert 'A' <= c <= 'Z' <==> 65 <= n <= 90;
    assert '2' <= c <= '7' <==> 50 <= n <= 55;
  }

  /** An address is an account or a contract: its letter, and 55 characters of base 32. */
  lemma AddressIff(s: string)
    ensures IsAddress(s) <==> exists key :: |key| == 55 && (forall i | 0 <= i < 55 :: IsBase32(key[i])) && (s == "G" + key || s == "C" + key)
  {
    if IsAddress(s) {
      var key := s[1..];
      forall i | 0 <= i < 55 ensures IsBase32(key[i]) {
        Base32Iff(s[i + 1]);
      }
      assert s == [s[0]] + key;
    }
    if key :| |key| == 55 && (forall i | 0 <= i < 55 :: IsBase32(key[i])) && (s == "G" + key || s == "C" + key) {
      forall i | 1 <= i < 56 ensures 'A' <= s[i] <= 'Z' || '2' <= s[i] <= '7' {
        assert s[i] == key[i - 1];
        Base32Iff(key[i - 1]);
      }
    }
  }

  // ----- forms -----

  /** What the payload gives for each field of the event, by place and by name. */
  function AsGiven(kind: Kind, v: Js): Read {
    match kind
    case MarketCreated =>
      ReadCreated(Given(v, 0, MarketIdField), Given(v, 1, QuestionField), Given(v, 2, CategoryField), Given(v, 3, EndTimeField),
                  Given(v, 4, CreatorField), Given(v, 5, ImageUrlField))
    case MarketResolved => ReadResolved(Given(v, 0, MarketIdField), Given(v, 1, OutcomeField))
    case MarketCancelled => ReadCancelled(Given(v, 0, MarketIdField))
    case BetPlaced =>
      var amount := Given3(v, 3, GrossAmountField, GrossField, AmountField);
      var net := Given3(v, 4, NetAmountField, NetField, AmountField);
      ReadBet(Given(v, 0, MarketIdField), Given2(v, 1, BettorField, UserField), Given(v, 2, IsYesField),
              amount, if v.Arr? && Nullish(net) then amount else net, Given(v, 5, FeeField), Given(v, 6, IsIncreaseField))
    case ReferralReward => ReadReward(Given(v, 0, ReferrerField), Given(v, 1, PointsField))
    case ReferralRegistered =>
      ReadRegistered(Given3(v, 0, UserField, AddressField, RegistrantField),
                     Given3(v, 1, DisplayNameField, CamelDisplayNameField, NameField),
                     Given2(v, 2, ReferrerField, ReferrerAddressField),
                     if v.Arr? then Undefined else Given3(v, 0, WelcomeBonusPointsField, WelcomePointsField, PointsField),
                     if v.Arr? then Undefined else Given3(v, 0, ReferrerBonusPointsField, BonusPointsField, ReferralPointsField))
  }

  /** Tuples and objects; of a bet seven places; and the schemas that look at the names refuse others. */
  predicate Shaped(kind: Kind, v: Js) {
    match kind
    case MarketCreated => NamesOnly(v, {MarketIdField, QuestionField, CategoryField, EndTimeField, CreatorField, ImageUrlField})
    case MarketResolved => NamesOnly(v, {MarketIdField, OutcomeField})
    case MarketCancelled => NamesOnly(v, {MarketIdField})
    case BetPlaced =>
      && NamesOnly(v, {MarketIdField, BettorField, UserField, IsYesField, AmountField, GrossAmountField, GrossField, NetAmountField,
                       NetField, FeeField, IsIncreaseField})
      && (v.Arr? ==> |v.items| == 7)
    case _ => v.Arr? || v.Obj?
  }

  lemma ShapedIff(kind: Kind, v: Js)
    ensures Candidate(kind, v).Some? <==> Shaped(kind, v)
  {
  }

  /** Equal, or both nothing. */
  predicate Same(v: Js, w: Js) { v == w || (Nullish(v) && Nullish(w)) }

  predicate SameRead(r: Read, q: Read) {
    match (r, q)
    case (ReadCreated(i, u, a, e, o, m), ReadCreated(i', u', a', e', o', m')) =>
      Same(i, i') && Same(u, u') && Same(a, a') && Same(e, e') && Same(o, o') && Same(m, m')
    case (ReadResolved(i, o), ReadResolved(i', o')) => Same(i, i') && Same(o, o')
    case (ReadCancelled(i), ReadCancelled(i')) => Same(i, i')
    case (ReadBet(i, b, y, g, n, f, s), ReadBet(i', b', y', g', n', f', s')) =>
      Same(i, i') && Same(b, b') && Same(y, y') && Same(g, g') && Same(n, n') && Same(f, f') && Same(s, s')
    case (ReadReward(w, n), ReadReward(w', n')) => Same(w, w') && Same(n, n')
    case (ReadRegistered(u, d, f, w, b), ReadRegistered(u', d', f', w', b')) =>
      Same(u, u') && Same(d, d') && Same(f, f') && Same(w, w') && Same(b, b')
    case _ => false
  }

  lemma SameCategory(c: Conversions, v: Js, w: Js, s: string)
    requires Same(v, w)
    ensures SpellsCategory(c, v, s) <==> SpellsCategory(c, w, s)
  {
    assert "undefined"[0] == 'u' && "null"[0] == 'n';
    assert "Crypto"[0] == 'C' && "Sports"[0] == 'S' && "Politics"[0] == 'P';
    assert "Entertainment"[0] == 'E' && "Science"[0] == 'S' && "Other"[0] == 'O';
  }

  lemma SameCreated(c: Conversions, r: Read, q: Read, p: Payload)
    requires r.ReadCreated? && p.Created? && SameRead(r, q)
    ensures Spells(c, r, p) <==> Spells(c, q, p)
  {
    SameCategory(c, r.category, q.category, p.category);
  }

  lemma SameAmount(v: Js, w: Js, s: string)
    requires Same(v, w)
    ensures SpellsAmount(v, s) <==> SpellsAmount(w, s)
  {
  }

  lemma SameFlag(v: Js, w: Js, b: bool)
    requires Same(v, w)
    ensures SpellsBool(v, b) <==> SpellsBool(w, b)
  {
  }

  lemma SameBet(c: Conversions, r: Read, q: Read, p: Payload)
    requires r.ReadBet? && p.Bet? && SameRead(r, q)
    ensures Spells(c, r, p) <==> Spells(c, q, p)
  {
    SameAmount(r.gross, q.gross, p.amount);
    SameAmount(r.net, q.net, p.netAmount);
    SameFlag(r.isYes, q.isYes, p.isYes);
    if p.fee.Some? {
      SameAmount(r.fee, q.fee, p.fee.value);
    }
    if p.isIncrease.Some? {
      SameFlag(r.isIncrease, q.isIncrease, p.isIncrease.value);
    }
  }

  lemma SameRegistered(c: Conversions, r: Read, q: Read, p: Payload)
    requires r.ReadRegistered? && p.Registered? && SameRead(r, q)
    ensures Spells(c, r, p) <==> Spells(c, q, p)
  {
  }

  lemma SameSpells(c: Conversions, r: Read, q: Read, p: Payload)
    requires SameRead(r, q) && OfKind(r, KindOf(p))
    ensures Spells(c, r, p) <==> Spells(c, q, p)
  {
    match p
    case Created(_, _, _, _, _, _) => SameCreated(c, r, q, p);
    case Bet(_, _, _, _, _, _, _) => SameBet(c, r, q, p);
    case Registered(_, _, _, _, _) => SameRegistered(c, r, q, p);
    case Resolved(_, _) =>
    case Cancelled(_) =>
    case Reward(_, _) =>
  }

  lemma {:induction false} TuplePlace(names: seq<Field>, items: seq<Js>, i: nat)
    requires i < |names| && forall j, k | 0 <= j < k < |names| :: names[j] != names[k]
    ensures Get(FromTuple(names, items), names[i]) == Item(items, i)
  {
    if i < |names| - 1 {
      TuplePlace(Front(names), items, i);
    }
  }

  lemma {:induction false} TupleHasNoOther(names: seq<Field>, items: seq<Js>, name: Field)
    requires name !in names
    ensures Get(FromTuple(names, items), name) == Undefined
  {
    if names != [] {
      TupleHasNoOther(Front(names), items, name);
    }
  }

  lemma ObjectIsGiven(kind: Kind, v: Js)
    requires v.Obj?
    ensures SameRead(ReadFields(kind, v.fields), AsGiven(kind, v))
  {
  }

  /** The record of a tuple has its item `i` under the `i`-th name. */
  lemma Placed(kind: Kind, items: seq<Js>, i: nat, name: Field)
    requires i < |TupleFields(kind)| && TupleFields(kind)[i] == name
    ensures Get(FromTuple(TupleFields(kind), items), name) == Item(items, i)
  {
    TuplePlace(TupleFields(kind), items, i);
  }

  lemma CreatedPlaces(items: seq<Js>)
    ensures var m := FromTuple(TupleFields(MarketCreated), items);
            && Get(m, MarketIdField) == Item(items, 0) && Get(m, QuestionField) == Item(items, 1)
            && Get(m, CategoryField) == Item(items, 2) && Get(m, EndTimeField) == Item(items, 3)
            && Get(m, CreatorField) == Item(items, 4) && Get(m, ImageUrlField) == Item(items, 5)
  {
    Placed(MarketCreated, items, 0, MarketIdField);
    Placed(MarketCreated, items, 1, QuestionField);
    Placed(MarketCreated, items, 2, CategoryField);
    Placed(MarketCreated, items, 3, EndTimeField);
    Placed(MarketCreated, items, 4, CreatorField);
    Placed(MarketCreated, items, 5, ImageUrlField);
  }

  lemma BetPlaces(items: seq<Js>)
    ensures var m := FromTuple(TupleFields(BetPlaced), items);
            && Get(m, MarketIdField) == Item(items, 0) && Get(m, BettorField) == Item(items, 1)
            && Get(m, IsYesField) == Item(items, 2) && Get(m, AmountField) == Item(items, 3)
            && Get(m, NetAmountField) == Item(items, 4) && Get(m, FeeField) == Item(items, 5)
            && Get(m, IsIncreaseField) == Item(items, 6)
  {
    Placed(BetPlaced, items, 0, MarketIdField);
    Placed(BetPlaced, items, 1, BettorField);
    Placed(BetPlaced, items, 2, IsYesField);
    Placed(BetPlaced, items, 3, AmountField);
    Placed(BetPlaced, items, 4, NetAmountField);
    Placed(BetPlaced, items, 5, FeeField);
    Placed(BetPlaced, items, 6, IsIncreaseField);
  }

  lemma BetHasNoOther(items: seq<Js>)
    ensures var m := FromTuple(TupleFields(BetPlaced), items);
            && Get(m, UserField) == Undefined && Get(m, GrossAmountField) == Undefined
            && Get(m, GrossField) == Undefined && Get(m, NetField) == Undefined
  {
    TupleHasNoOther(TupleFields(BetPlaced), items, UserField);
    TupleHasNoOther(TupleFields(BetPlaced), items, GrossAmountField);
    TupleHasNoOther(TupleFields(BetPlaced), items, GrossField);
    TupleHasNoOther(TupleFields(BetPlaced), items, NetField);
  }

  lemma RegisteredPlaces(items: seq<Js>)
    ensures var m := FromTuple(TupleFields(ReferralRegistered), items);
            && Get(m, UserField) == Item(items, 0) && Get(m, DisplayNameField) == Item(items, 1)
            && Get(m, ReferrerField) == Item(items, 2)
            && forall name | name !in {UserField, DisplayNameField, ReferrerField} :: Get(m, name) == Undefined
  {
    Placed(ReferralRegistered, items, 0, UserField);
    Placed(ReferralRegistered, items, 1, DisplayNameField);
    Placed(ReferralRegistered, items, 2, ReferrerField);
    forall name | name !in {UserField, DisplayNameField, ReferrerField}
      ensures Get(FromTuple(TupleFields(ReferralRegistered), items), name) == Undefined
    {
      TupleHasNoOther(TupleFields(ReferralRegistered), items, name);
    }
  }

  lemma TupleIsGiven(kind: Kind, items: seq<Js>)
    ensures SameRead(ReadFields(kind, FromTuple(TupleFields(kind), items)), AsGiven(kind, Arr(items)))
  {
    match kind
    case MarketCreated => CreatedPlaces(items);
    case MarketResolved =>
      Placed(MarketResolved, items, 0, MarketIdField);
      Placed(MarketResolved, items, 1, OutcomeField);
    case MarketCancelled => Placed(MarketCancelled, items, 0, MarketIdField);
    case BetPlaced =>
      BetPlaces(items);
      BetHasNoOther(items);
    case ReferralReward =>
      Placed(ReferralReward, items, 0, ReferrerField);
      Placed(ReferralReward, items, 1, PointsField);
    case ReferralRegistered => RegisteredPlaces(items);
  }

  /** A payload presents `p`: it has the shape, and what it gives for each field spells it. */
  predicate Presents(c: Conversions, v: Js, p: Payload) { Shaped(KindOf(p), v) && Spells(c, AsGiven(KindOf(p), v), p) }

  /** A schema accepts a payload with the result `p` if and only if the payload presents `p`. */
  lemma ParseIff(c: Conversions, v: Js, p: Payload)
    ensures Parse(c, KindOf(p), v) == Some(p) <==> Presents(c, v, p)
  {
    var kind := KindOf(p);
    ShapedIff(kind, v);
    if Candidate(kind, v).Some? {
      var r := ReadFields(kind, Candidate(kind, v).value);
      if v.Arr? {
        TupleIsGiven(kind, v.items);
      } else {
        ObjectIsGiven(kind, v);
      }
      ReadIff(c, r, p);
      SameSpells(c, r, AsGiven(kind, v), p);
    }
  }

  // ----- the tuples that contracts emit -----

  function AsTuple(p: Payload): seq<Js> {
    match p
    case Created(id, question, category, end, creator, image) =>
      [AsNum(id), Str(question), Str(category), AsNum(end), Str(creator), OrUndefined(image)]
    case Resolved(id, outcome) => [AsNum(id), Bool(outcome)]
    case Cancelled(id) => [AsNum(id)]
    case Bet(id, bettor, isYes, amount, net, fee, increase) =>
      [AsNum(id), Str(bettor), Bool(isYes), Str(amount), Str(net), OrUndefined(fee),
       if increase.Some? then Bool(increase.value) else Undefined]
    case Reward(referrer, points) => [Str(referrer), AsNum(points)]
    case Registered(user, name, referrer, _, _) => [Str(user), OrNull(name), OrNull(referrer)]
  }

  lemma BetTupleSpells(c: Conversions, p: Payload)
    requires p.Bet? && Canonical(p)
    ensures Presents(c, Arr(AsTuple(p)), p)
  {
    var t := AsTuple(p);
    assert t[0] == AsNum(p.marketId) && t[1] == Str(p.bettor) && t[2] == Bool(p.isYes) && t[3] == Str(p.amount);
    assert t[4] == Str(p.netAmount) && t[5] == OrUndefined(p.fee);
  }

  lemma CreatedTupleSpells(c: Conversions, p: Payload)
    requires p.Created? && Canonical(p)
    ensures Presents(c, Arr(AsTuple(p)), p)
  {
    assert Text(c, Str(p.category)) == p.category;
    assert CATEGORIES[0] == "Crypto" && CATEGORIES[1] == "Sports" && CATEGORIES[2] == "Politics";
    assert CATEGORIES[3] == "Entertainment" && CATEGORIES[4] == "Science" && CATEGORIES[5] == "Other";
  }

  lemma RegisteredTupleSpellsIff(c: Conversions, p: Payload)
    requires p.Registered? && Canonical(p)
    ensures Presents(c, Arr(AsTuple(p)), p) <==> p.welcomePoints == 5 && p.referrerPoints == 5
  {
    var t := AsTuple(p);
    assert t[0] == Str(p.user) && t[1] == OrNull(p.displayName) && t[2] == OrNull(p.referrerOf);
  }

  /** Every result reads back from its tuple, except a registration with points other than the defaults:
      its tuple has no place for them. */
  lemma TupleRoundTripIff(c: Conversions, p: Payload)
    requires Canonical(p)
    ensures Parse(c, KindOf(p), Arr(AsTuple(p))) == Some(p)
       <==> (p.Registered? ==> p.welcomePoints == 5 && p.referrerPoints == 5)
  {
    ParseIff(c, Arr(AsTuple(p)), p);
    match p
    case Created(_, _, _, _, _, _) => CreatedTupleSpells(c, p);
    case Bet(_, _, _, _, _, _, _) => BetTupleSpells(c, p);
    case Registered(_, _, _, _, _) => RegisteredTupleSpellsIff(c, p);
    case _ =>
  }
}

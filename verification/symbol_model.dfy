/**
  A symbol of a market (Algoloop.Model.SymbolModel): its identity, its constructors,
  the conversion from a plain string used when upgrading an old database, its display
  text and its ordering (IComparable.CompareTo).
*/
module Symbols {
  import opened Wrappers
  import opened Text

  /** QuantConnect's SecurityType, with the enum values 0..7 in declaration order. */
  datatype SecurityType = Base | Equity | Option | Commodity | Forex | Future | Cfd | Crypto

  /** The underlying integer value of the enum member. */
  function Ordinal(t: SecurityType): nat {
    match t
    case Base => 0
    case Equity => 1
    case Option => 2
    case Commodity => 3
    case Forex => 4
    case Future => 5
    case Cfd => 6
    case Crypto => 7
  }

  /** Enum.ToString(): the member's name. */
  function SecurityName(t: SecurityType): string {
    match t
    case Base => "Base"
    case Equity => "Equity"
    case Option => "Option"
    case Commodity => "Commodity"
    case Forex => "Forex"
    case Future => "Future"
    case Cfd => "Cfd"
    case Crypto => "Crypto"
  }

  /** Enum.Parse by exact name: the inverse of SecurityName. */
  function SecurityByName(n: string): (r: Option<SecurityType>)
    ensures r.Some? ==> SecurityName(r.value) == n
  {
    if n == "Base" then Some(Base)
    else if n == "Equity" then Some(Equity)
    else if n == "Option" then Some(Option)
    else if n == "Commodity" then Some(Commodity)
    else if n == "Forex" then Some(Forex)
    else if n == "Future" then Some(Future)
    else if n == "Cfd" then Some(Cfd)
    else if n == "Crypto" then Some(Crypto)
    else None
  }

  lemma SecurityByNameOfName(t: SecurityType)
    ensures SecurityByName(SecurityName(t)) == Some(t)
    ensures ' ' !in SecurityName(t)
  {
  }

  /** The serialised fields of a symbol; the untyped Properties dictionary is not modelled. */
  datatype SymbolModel = SymbolModel(
    id: NString,
    active: bool,
    name: NString,
    market: NString,
    security: SecurityType)

  datatype Exception = ArgumentNullException(paramName: string)

  /** new SymbolModel(): the property initialisers alone. */
  function Default(): (r: SymbolModel)
    ensures r.active && r.name == Str("symbol")
    ensures r.id.Null? && r.market.Null? && r.security == Base
  {
    SymbolModel(Null, true, Str("symbol"), Null, Base)
  }

  /** new SymbolModel(name, market, security): the three given fields over the defaults. */
  function Create(name: NString, market: NString, security: SecurityType): (r: SymbolModel)
    ensures r.name == name && r.market == market && r.security == security
    ensures r == Default().(name := name, market := market, security := security)
  {
    SymbolModel(Null, true, name, market, security)
  }

  /**
    new SymbolModel(model): copies Active, Name, Market and Security; Id keeps its default;
    a null argument throws ArgumentNullException.
  */
  function Copy(model: Option<SymbolModel>): (r: Result<SymbolModel, Exception>)
    ensures model.None? <==> r == Failure(ArgumentNullException("model"))
    ensures model.Some? ==> r.Success? && r.value == model.value.(id := Null)
  {
    match model
    case None => Failure(ArgumentNullException("model"))
    case Some(m) => Success(SymbolModel(Null, m.active, m.name, m.market, m.security))
  }

  /** implicit operator SymbolModel(string): the string becomes the name, in the empty market. */
  function FromString(symbol: NString): (r: SymbolModel)
    ensures r.name == symbol && r.market == Str("") && r.security == Base
    ensures r.active && r.id.Null?
  {
    Create(symbol, Str(""), Base)
  }

  /** Enum.CompareTo(object): a null (boxed) target sorts first; otherwise by value, as -1, 0 or 1. */
  function CompareSecurity(t: SecurityType, target: Option<SecurityType>): (r: int)
    ensures target.None? ==> r == 1
    ensures target.Some? ==> (r < 0 <==> Ordinal(t) < Ordinal(target.value))
    ensures target.Some? ==> (r == 0 <==> t == target.value)
    ensures -1 <= r <= 1
  {
    match target
    case None => 1
    case Some(u) => if Ordinal(t) < Ordinal(u) then -1 else if Ordinal(t) == Ordinal(u) then 0 else 1
  }

  /**
    CompareTo(obj): `obj as SymbolModel` is None when obj is null or not a symbol. The names
    decide first, then the markets, both ordinal ignoring case, then the security type.
  */
  function CompareTo(x: SymbolModel, obj: Option<SymbolModel>): int {
    var aName := if obj.Some? then obj.value.name else Null;
    var aMarket := if obj.Some? then obj.value.market else Null;
    var aSecurity := if obj.Some? then Some(obj.value.security) else None;
    var byName := CompareIgnoreCase(x.name, aName);
    if byName != 0 then byName
    else
      var byMarket := CompareIgnoreCase(x.market, aMarket);
      if byMarket != 0 then byMarket
      else CompareSecurity(x.security, aSecurity)
  }

  /** Two symbols with the same identity in the ordering's sense. */
  ghost predicate SameSymbol(x: SymbolModel, y: SymbolModel) {
    SameIgnoringCase(x.name, y.name) && SameIgnoringCase(x.market, y.market) && x.security == y.security
  }

  /** Every symbol sorts after null (and after any object that is not a symbol). */
  lemma CompareToNull(x: SymbolModel)
    ensures CompareTo(x, None) > 0
  {
  }

  /** The name decides first; only equal names look at the market, only equal markets at the security. */
  lemma CompareToLexicographic(x: SymbolModel, y: SymbolModel)
    ensures !SameIgnoringCase(x.name, y.name) ==>
      CompareTo(x, Some(y)) == CompareIgnoreCase(x.name, y.name) != 0
    ensures SameIgnoringCase(x.name, y.name) && !SameIgnoringCase(x.market, y.market) ==>
      CompareTo(x, Some(y)) == CompareIgnoreCase(x.market, y.market) != 0
    ensures SameIgnoringCase(x.name, y.name) && SameIgnoringCase(x.market, y.market) ==>
      CompareTo(x, Some(y)) == CompareSecurity(x.security, Some(y.security))
  {
    CompareIgnoreCaseZeroIff(x.name, y.name);
    CompareIgnoreCaseZeroIff(x.market, y.market);
  }

  /** A zero comparison means exactly: equal names and markets ignoring case, and equal security. */
  lemma CompareToZeroIff(x: SymbolModel, y: SymbolModel)
    ensures CompareTo(x, Some(y)) == 0 <==> SameSymbol(x, y)
  {
    CompareIgnoreCaseZeroIff(x.name, y.name);
    CompareIgnoreCaseZeroIff(x.market, y.market);
  }

  /** Reflexivity: a symbol compares equal to itself. */
  lemma CompareToSelf(x: SymbolModel)
    ensures CompareTo(x, Some(x)) == 0
  {
    CompareToZeroIff(x, x);
  }

  /** Antisymmetry: swapping the two symbols negates the result. */
  lemma CompareToAntisymmetric(x: SymbolModel, y: SymbolModel)
    ensures CompareTo(x, Some(y)) == -CompareTo(y, Some(x))
  {
    CompareIgnoreCaseAntisymmetric(x.name, y.name);
    CompareIgnoreCaseAntisymmetric(x.market, y.market);
  }

  /** Transitivity, strict part included: CompareTo is a total preorder on symbols. */
  lemma CompareToTransitive(x: SymbolModel, y: SymbolModel, z: SymbolModel)
    requires CompareTo(x, Some(y)) <= 0 && CompareTo(y, Some(z)) <= 0
    ensures CompareTo(x, Some(z)) <= 0
    ensures CompareTo(x, Some(z)) == 0 ==> CompareTo(x, Some(y)) == 0 && CompareTo(y, Some(z)) == 0
  {
    var nxy, nyz := CompareIgnoreCase(x.name, y.name), CompareIgnoreCase(y.name, z.name);
    var mxy, myz := CompareIgnoreCase(x.market, y.market), CompareIgnoreCase(y.market, z.market);
    assert nxy <= 0 && nyz <= 0;
    CompareIgnoreCaseTransitive(x.name, y.name, z.name);
    if nxy == 0 && nyz == 0 {
      assert mxy <= 0 && myz <= 0;
      CompareIgnoreCaseTransitive(x.market, y.market, z.market);
    }
  }

  /** A copy has the same place in the ordering as its original. */
  lemma CopyComparesEqual(m: SymbolModel)
    ensures Copy(Some(m)).Success?
    ensures CompareTo(Copy(Some(m)).value, Some(m)) == 0
    ensures Copy(Some(Copy(Some(m)).value)) == Copy(Some(m))
  {
    CompareToSelf(m);
  }

  /** Symbols converted from strings are ordered exactly as the strings are. */
  lemma FromStringOrder(a: NString, b: NString)
    ensures CompareTo(FromString(a), Some(FromString(b))) == CompareIgnoreCase(a, b)
  {
  }

  /** ToString(): $"{Security} {Market} {Name}" (a null field prints as nothing). */
  function ToString(x: SymbolModel): (r: string)
    ensures |r| == |SecurityName(x.security)| + |OrEmpty(x.market)| + |OrEmpty(x.name)| + 2
  {
    SecurityName(x.security) + " " + OrEmpty(x.market) + " " + OrEmpty(x.name)
  }

  /** Reads a display text back: security name, market and name separated by the first two spaces. */
  function ParseDisplay(s: string): Option<(SecurityType, string, string)> {
    match SplitAtFirst(s, ' ')
    case None => None
    case Some((sec, rest)) =>
      match SplitAtFirst(rest, ' ')
      case None => None
      case Some((market, name)) =>
        match SecurityByName(sec)
        case None => None
        case Some(t) => Some((t, market, name))
  }

  /** The display text determines security, market and name when the market holds no space. */
  lemma ToStringRoundTrip(x: SymbolModel)
    requires ' ' !in OrEmpty(x.market)
    ensures ParseDisplay(ToString(x)) == Some((x.security, OrEmpty(x.market), OrEmpty(x.name)))
  {
    var sec, market, name := SecurityName(x.security), OrEmpty(x.market), OrEmpty(x.name);
    SecurityByNameOfName(x.security);
    assert ToString(x) == sec + [' '] + (market + [' '] + name);
    SplitAtFirstOf(sec, ' ', market + [' '] + name);
    SplitAtFirstOf(market, ' ', name);
  }
}

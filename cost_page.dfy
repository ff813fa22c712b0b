/** The display helpers of the cost-per-km index page and the per-row values it
    derives from an entry-fee record before rendering it. */
module CostPage {
  import opened Js

  // ---------------------------------------------------------------------------
  // asText

  /** Collapses a field value into one display string: an array becomes its truthy
      elements joined by ", ", null and undefined become "", anything else `String(v)`. */
  function AsText(v: Value): (r: string)
    ensures v.Undefined? || v.Null? ==> r == ""
    ensures !v.Arr? && !v.Undefined? && !v.Null? ==> r == ToStr(v)
  {
    match v
    case Arr(items) => ArrayJoin(FilterTruthy(items), ", ")
    case Undefined => ""
    case Null => ""
    case _ => ToStr(v)
  }

  /** The array value holding the given strings. */
  function Strs(ss: seq<string>): (r: seq<Value>)
    ensures |r| == |ss|
    ensures forall i :: 0 <= i < |ss| ==> r[i] == Str(ss[i])
  {
    seq(|ss|, i requires 0 <= i < |ss| => Str(ss[i]))
  }

  lemma {:induction false} FilterTruthyStrs(ss: seq<string>)
    ensures FilterTruthy(Strs(ss)) == Strs(NonEmpty(ss))
  {
    if ss != [] {
      assert Strs(ss)[1..] == Strs(ss[1..]);
      FilterTruthyStrs(ss[1..]);
      if ss[0] != "" {
        assert Strs([ss[0]] + NonEmpty(ss[1..])) == [Str(ss[0])] + Strs(NonEmpty(ss[1..]));
      }
    }
  }

  /** On a list of strings `asText` is the non-empty strings joined by ", ". */
  lemma AsTextStrings(ss: seq<string>)
    ensures AsText(Arr(Strs(ss))) == Join(NonEmpty(ss), ", ")
  {
    FilterTruthyStrs(ss);
    assert ElemStrings(Strs(NonEmpty(ss))) == NonEmpty(ss);
  }

  lemma {:induction false} NonEmptyNone(ss: seq<string>)
    ensures NonEmpty(ss) == [] <==> forall i :: 0 <= i < |ss| ==> ss[i] == ""
  {
    if ss != [] {
      NonEmptyNone(ss[1..]);
      assert forall i :: 1 <= i < |ss| ==> ss[i] == ss[1..][i - 1];
    }
  }

  /** A list of strings collapses to "" exactly when every string in it is empty. */
  lemma AsTextStringsEmpty(ss: seq<string>)
    ensures AsText(Arr(Strs(ss))) == "" <==> forall i :: 0 <= i < |ss| ==> ss[i] == ""
  {
    AsTextStrings(ss);
    var ne := NonEmpty(ss);
    assert forall i :: 0 <= i < |ne| ==> ne[i] in ne;
    JoinEmpty(ne, ", ");
    NonEmptyNone(ss);
  }

  // ---------------------------------------------------------------------------
  // Country name to ISO 3166-1 alpha-2 code

  /** The fixed table of lower-case country names and their two-letter codes,
      one case per entry of the page's table, in its order. */
  function CountryCode(key: string): (r: Option<string>)
    ensures r.Some? ==> |r.value| == 2
  {
    match key
    case "france" => Some("fr")
    case "spain" => Some("es")
    case "italy" => Some("it")
    case "portugal" => Some("pt")
    case "germany" => Some("de")
    case "austria" => Some("at")
    case "switzerland" => Some("ch")
    case "united kingdom" => Some("gb")
    case "uk" => Some("gb")
    case "greece" => Some("gr")
    case "turkey" => Some("tr")
    case "sweden" => Some("se")
    case "norway" => Some("no")
    case "denmark" => Some("dk")
    case "finland" => Some("fi")
    case "iceland" => Some("is")
    case "ireland" => Some("ie")
    case "belgium" => Some("be")
    case "netherlands" => Some("nl")
    case "the netherlands" => Some("nl")
    case "luxembourg" => Some("lu")
    case "poland" => Some("pl")
    case "czech republic" => Some("cz")
    case "czechia" => Some("cz")
    case "slovakia" => Some("sk")
    case "hungary" => Some("hu")
    case "romania" => Some("ro")
    case "bulgaria" => Some("bg")
    case "croatia" => Some("hr")
    case "slovenia" => Some("si")
    case "serbia" => Some("rs")
    case "montenegro" => Some("me")
    case "albania" => Some("al")
    case "north macedonia" => Some("mk")
    case "macedonia" => Some("mk")
    case "bosnia and herzegovina" => Some("ba")
    case "bosnia" => Some("ba")
    case "estonia" => Some("ee")
    case "latvia" => Some("lv")
    case "lithuania" => Some("lt")
    case "cyprus" => Some("cy")
    case "malta" => Some("mt")
    case "andorra" => Some("ad")
    case "monaco" => Some("mc")
    case "liechtenstein" => Some("li")
    case "san marino" => Some("sm")
    case "morocco" => Some("ma")
    case "usa" => Some("us")
    case "united states" => Some("us")
    case "canada" => Some("ca")
    case "mexico" => Some("mx")
    case "brazil" => Some("br")
    case "argentina" => Some("ar")
    case "chile" => Some("cl")
    case "colombia" => Some("co")
    case "japan" => Some("jp")
    case "china" => Some("cn")
    case "australia" => Some("au")
    case "new zealand" => Some("nz")
    case "south africa" => Some("za")
    case "kenya" => Some("ke")
    case "nepal" => Some("np")
    case "india" => Some("in")
    case _ => None
  }

  /** The key the lookup uses: lower-cased, then trimmed. */
  function CountryKey(country: string): string {
    Trim(Lower(country))
  }

  /** The code for a country name, looked up among the table's own entries. */
  function CountryToCode(country: string): (r: Option<string>)
    ensures country == "" ==> r == None
    ensures r.Some? <==> country != "" && CountryCode(CountryKey(country)).Some?
    ensures r.Some? ==> r == CountryCode(CountryKey(country)) && |r.value| == 2
  {
    if country == "" then None
    else
      match CountryCode(CountryKey(country))
      case Some(code) => if code != "" then Some(code) else None
      case None => None
  }

  /** Surrounding white space does not change the lookup. */
  lemma CountryToCodePadded(w1: string, country: string, w2: string)
    requires AllSpace(w1) && AllSpace(w2)
    ensures CountryToCode(w1 + country + w2) == CountryToCode(country)
  {
    LowerAppend(w1, country);
    LowerAppend(w1 + country, w2);
    LowerSpaces(w1);
    LowerSpaces(w2);
    TrimPadded(w1, Lower(country), w2);
    assert CountryKey(w1 + country + w2) == CountryKey(country);
    if country == "" {
      assert CountryKey(country) == "";
    }
  }

  /** Letter case does not change the lookup. */
  lemma CountryToCodeCaseless(a: string, b: string)
    requires Lower(a) == Lower(b)
    ensures CountryToCode(a) == CountryToCode(b)
  {
  }

  /** "France" is found whatever its case and surrounding spaces. */
  lemma CountryToCodeFrance()
    ensures CountryToCode("France") == Some("fr")
    ensures CountryToCode(" France ") == Some("fr")
  {
    assert CountryKey("France") == "france";
    assert CountryKey(" France ") == "france";
  }

  /** A name missing from the table, and the empty name, give no code. */
  lemma CountryToCodeUnknown()
    ensures CountryToCode("Atlantis") == None
    ensures CountryToCode("") == None
  {
    assert CountryKey("Atlantis") == "atlantis";
  }

  /** What a property read on the page's plain object literal can return: one of
      its own entries, or a member inherited from `Object.prototype`. */
  datatype Lookup = Code(code: string) | PrototypeMember(name: string)

  /** The lower-case names under which `Object.prototype` holds a truthy member. */
  const InheritedKeys: set<string> := {"constructor", "__proto__"}

  /** `countryToCode` as written: `COUNTRY_CODES[lower] || null` also finds the
      members every object inherits, and returns them in place of a code. */
  function CountryToCodeAsWritten(country: string): (r: Option<Lookup>)
    ensures CountryKey(country) !in InheritedKeys ==>
      r == (match CountryToCode(country) case Some(c) => Some(Code(c)) case None => None)
  {
    if country == "" then None
    else
      var key := CountryKey(country);
      match CountryCode(key)
      case Some(code) => if code != "" then Some(Code(code)) else None
      case None => if key in InheritedKeys then Some(PrototypeMember(key)) else None
  }

  lemma ConstructorKey()
    ensures CountryKey("Constructor") == "constructor"
  {
  }

  /** A country named "Constructor" gets a function back where a code belongs. */
  lemma CountryToCodeAsWrittenLeaks()
    ensures CountryToCodeAsWritten("Constructor") == Some(PrototypeMember("constructor"))
    ensures CountryToCode("Constructor") == None
  {
    ConstructorKey();
    assert CountryCode("constructor") == None;
    assert "constructor" in InheritedKeys;
  }

  // ---------------------------------------------------------------------------
  // Flag image URL

  const FlagPrefix := "https://flagcdn.com/w320/"
  const FlagSuffix := ".png"

  /** The flag image URL for a country code. */
  function FlagUrl(code: string): (r: string)
    ensures StartsWith(r, FlagPrefix)
    ensures |r| == |FlagPrefix| + |code| + |FlagSuffix|
    ensures r[|FlagPrefix|..|FlagPrefix| + |code|] == code
    ensures r[|FlagPrefix| + |code|..] == FlagSuffix
  {
    FlagPrefix + code + FlagSuffix
  }

  /** The country code a flag URL was built from. */
  function FlagCode(url: string): Option<string> {
    if |url| >= |FlagPrefix| + |FlagSuffix| && StartsWith(url, FlagPrefix)
       && url[|url| - |FlagSuffix|..] == FlagSuffix
    then Some(url[|FlagPrefix|..|url| - |FlagSuffix|])
    else None
  }

  /** `FlagCode` reads back the code of every flag URL, and only of flag URLs. */
  lemma FlagUrlRoundTrip(code: string, url: string)
    ensures FlagCode(FlagUrl(code)) == Some(code)
    ensures FlagCode(url) == Some(code) ==> FlagUrl(code) == url
  {
    if FlagCode(url) == Some(code) {
      assert url == url[..|FlagPrefix|] + url[|FlagPrefix|..|url| - |FlagSuffix|]
                    + url[|url| - |FlagSuffix|..];
    }
  }

  // ---------------------------------------------------------------------------
  // Price bands

  const Dash := "\U{2014}"
  const UpToOne := "0\U{2013}1"
  const OneToTwo := "1\U{2013}2"
  const TwoToThree := "2\U{2013}3"
  const OverThree := "3+"

  const NeutralEmpty := "bg-neutral-100 text-neutral-500"
  const Emerald := "bg-emerald-50 text-emerald-700 border-emerald-200"
  const Amber := "bg-amber-50 text-amber-700 border-amber-200"
  const Rose := "bg-rose-50 text-rose-700 border-rose-200"
  const NeutralOther := "bg-neutral-50 text-neutral-600 border-neutral-200"

  /** The lower-cased text both classifiers test. */
  function BandText(band: Value): string {
    Lower(ToStr(band))
  }

  predicate ColorCheap(b: string) {
    Contains(b, "cheap") || Contains(b, "low") || Contains(b, "budget")
    || Contains(b, "less than 1") || Contains(b, "0-1") || b == "$"
  }

  predicate ColorMid(b: string) {
    Contains(b, "mid") || Contains(b, "average") || Contains(b, "1-2") || b == "$$"
  }

  predicate ColorExpensive(b: string) {
    Contains(b, "expensive") || Contains(b, "high") || Contains(b, "premium")
    || Contains(b, "2-3") || Contains(b, "3+") || b == "$$$"
  }

  /** The CSS classes for a price band: the first group of tests that matches wins. */
  function BandColor(band: Value): (r: string)
    ensures !Truthy(band) <==> r == NeutralEmpty
    ensures Truthy(band) ==> r in {Emerald, Amber, Rose, NeutralOther}
  {
    if !Truthy(band) then NeutralEmpty
    else
      var b := BandText(band);
      if ColorCheap(b) then Emerald
      else if ColorMid(b) then Amber
      else if ColorExpensive(b) then Rose
      else NeutralOther
  }

  /** The cheap tests come before the mid tests, which come before the expensive ones. */
  lemma BandColorPrecedence(band: Value)
    requires Truthy(band)
    ensures ColorCheap(BandText(band)) ==> BandColor(band) == Emerald
    ensures !ColorCheap(BandText(band)) && ColorMid(BandText(band)) ==> BandColor(band) == Amber
    ensures BandColor(band) == Rose <==>
      !ColorCheap(BandText(band)) && !ColorMid(BandText(band)) && ColorExpensive(BandText(band))
    ensures BandColor(band) == NeutralOther <==>
      !ColorCheap(BandText(band)) && !ColorMid(BandText(band)) && !ColorExpensive(BandText(band))
  {
  }

  /** A label made only of dollar signs is classified by its exact length. */
  lemma BandColorDollars(band: Value)
    requires band.Str? && band.s != ""
    requires forall i :: 0 <= i < |band.s| ==> band.s[i] == '$'
    ensures BandColor(band) == (if band.s == "$" then Emerald
                                else if band.s == "$$" then Amber
                                else if band.s == "$$$" then Rose
                                else NeutralOther)
  {
    var b := BandText(band);
    assert b == band.s;
    AbsentChar(b, "cheap", 'c');
    AbsentChar(b, "low", 'l');
    AbsentChar(b, "budget", 'b');
    AbsentChar(b, "less than 1", 'l');
    AbsentChar(b, "0-1", '0');
    AbsentChar(b, "mid", 'm');
    AbsentChar(b, "average", 'a');
    AbsentChar(b, "1-2", '1');
    AbsentChar(b, "expensive", 'e');
    AbsentChar(b, "high", 'h');
    AbsentChar(b, "premium", 'p');
    AbsentChar(b, "2-3", '2');
    AbsentChar(b, "3+", '3');
  }

  lemma BandColorExamples()
    ensures BandColor(Str("$")) == Emerald
    ensures BandColor(Str("$$")) == Amber
    ensures BandColor(Str("$$$")) == Rose
  {
    BandColorDollars(Str("$"));
    BandColorDollars(Str("$$"));
    BandColorDollars(Str("$$$"));
  }

  /** A label naming both a cheap and a mid band is coloured as cheap. */
  lemma BandColorCheapBeforeMid()
    ensures BandColor(Str("Cheap but mid")) == Emerald
  {
    var b := BandText(Str("Cheap but mid"));
    assert b == "cheap but mid";
    assert StartsWith(b, "cheap");
    assert ColorCheap(b);
  }

  predicate SaysUnderOne(b: string) {
    Contains(b, "less than 1") || Contains(b, "under 1") || Contains(b, "0-1")
    || Contains(b, "< 1") || Contains(b, "<1")
  }

  predicate SaysOneToTwo(b: string) {
    Contains(b, "1-2") || Contains(b, "1 to 2") || (Contains(b, "mid") && !Contains(b, "3"))
  }

  predicate SaysTwoToThree(b: string) {
    Contains(b, "2-3") || Contains(b, "2 to 3")
  }

  predicate SaysOverThree(b: string) {
    Contains(b, "3+") || Contains(b, "3 to") || Contains(b, "more than 3")
    || Contains(b, "> 3") || Contains(b, ">3") || Contains(b, "expensive")
    || Contains(b, "premium") || Contains(b, "high")
  }

  predicate SaysCheap(b: string) {
    Contains(b, "cheap") || Contains(b, "low") || Contains(b, "budget")
  }

  predicate SaysMid(b: string) {
    Contains(b, "mid") || Contains(b, "average")
  }

  /** The normalised range label for a price band; a label no test recognises is
      shown as it is, in its original case. */
  function FormatBand(band: Value): (r: string)
    ensures !Truthy(band) ==> r == Dash
    ensures Truthy(band) ==> r in {UpToOne, OneToTwo, TwoToThree, OverThree} || r == ToStr(band)
  {
    if !Truthy(band) then Dash
    else
      var b := BandText(band);
      if SaysUnderOne(b) then UpToOne
      else if SaysOneToTwo(b) then OneToTwo
      else if SaysTwoToThree(b) then TwoToThree
      else if SaysOverThree(b) then OverThree
      else if SaysCheap(b) then UpToOne
      else if SaysMid(b) then OneToTwo
      else ToStr(band)
  }

  /** An explicit under-one label wins over every later test, "3+" and "expensive" included. */
  lemma FormatBandUnderOneFirst(band: Value)
    requires Truthy(band) && SaysUnderOne(BandText(band))
    ensures FormatBand(band) == UpToOne
  {
  }

  /** "mid" without a "3" gives 1–2 unless an explicit under-one label came first. */
  lemma FormatBandMid(band: Value)
    requires Truthy(band)
    requires Contains(BandText(band), "mid") && !Contains(BandText(band), "3")
    ensures FormatBand(band) == (if SaysUnderOne(BandText(band)) then UpToOne else OneToTwo)
  {
  }

  /** The cheap words give 0–1 and the expensive words 3+ only when no earlier test matched. */
  lemma FormatBandWordsLast(band: Value)
    requires Truthy(band)
    ensures SaysOverThree(BandText(band)) && !SaysUnderOne(BandText(band))
            && !SaysOneToTwo(BandText(band)) && !SaysTwoToThree(BandText(band))
            ==> FormatBand(band) == OverThree
    ensures SaysCheap(BandText(band)) && !SaysUnderOne(BandText(band))
            && !SaysOneToTwo(BandText(band)) && !SaysTwoToThree(BandText(band))
            && !SaysOverThree(BandText(band))
            ==> FormatBand(band) == UpToOne
  {
  }

  /** A label without the digits 1, 2 and 3 is classified by its words alone. */
  lemma FormatBandByWords(band: Value)
    requires Truthy(band)
    requires '1' !in BandText(band) && '2' !in BandText(band) && '3' !in BandText(band)
    ensures FormatBand(band) ==
      var b := BandText(band);
      if Contains(b, "mid") then OneToTwo
      else if Contains(b, "expensive") || Contains(b, "premium") || Contains(b, "high") then OverThree
      else if SaysCheap(b) then UpToOne
      else if Contains(b, "average") then OneToTwo
      else ToStr(band)
  {
    var b := BandText(band);
    AbsentChar(b, "less than 1", '1');
    AbsentChar(b, "under 1", '1');
    AbsentChar(b, "0-1", '1');
    AbsentChar(b, "< 1", '1');
    AbsentChar(b, "<1", '1');
    AbsentChar(b, "1-2", '1');
    AbsentChar(b, "1 to 2", '1');
    AbsentChar(b, "3", '3');
    AbsentChar(b, "2-3", '2');
    AbsentChar(b, "2 to 3", '2');
    AbsentChar(b, "3+", '3');
    AbsentChar(b, "3 to", '3');
    AbsentChar(b, "more than 3", '3');
    AbsentChar(b, "> 3", '3');
    AbsentChar(b, ">3", '3');
  }

  /** A label with no letter, space, hyphen or angle bracket is recognised only by "3+". */
  lemma FormatBandBySymbols(band: Value)
    requires Truthy(band)
    requires forall i :: 0 <= i < |BandText(band)| ==>
      !('a' <= BandText(band)[i] <= 'z') && BandText(band)[i] !in " -<>"
    ensures FormatBand(band) == if Contains(BandText(band), "3+") then OverThree else ToStr(band)
  {
    var b := BandText(band);
    assert ' ' !in b && '-' !in b && '<' !in b && '>' !in b;
    assert 'm' !in b && 'e' !in b && 'p' !in b && 'h' !in b;
    assert 'c' !in b && 'l' !in b && 'b' !in b && 'a' !in b;
    AbsentChar(b, "less than 1", ' ');
    AbsentChar(b, "under 1", ' ');
    AbsentChar(b, "0-1", '-');
    AbsentChar(b, "< 1", '<');
    AbsentChar(b, "<1", '<');
    AbsentChar(b, "1-2", '-');
    AbsentChar(b, "1 to 2", ' ');
    AbsentChar(b, "mid", 'm');
    AbsentChar(b, "2-3", '-');
    AbsentChar(b, "2 to 3", ' ');
    AbsentChar(b, "3 to", ' ');
    AbsentChar(b, "more than 3", ' ');
    AbsentChar(b, "> 3", '>');
    AbsentChar(b, ">3", '>');
    AbsentChar(b, "expensive", 'e');
    AbsentChar(b, "premium", 'p');
    AbsentChar(b, "high", 'h');
    AbsentChar(b, "cheap", 'c');
    AbsentChar(b, "low", 'l');
    AbsentChar(b, "budget", 'b');
    AbsentChar(b, "average", 'a');
  }

  /** The same for a string label: one without letters is shown unchanged unless it holds "3+". */
  lemma FormatBandSymbolText(text: string)
    requires text != ""
    requires forall i :: 0 <= i < |text| ==>
      !('A' <= text[i] <= 'Z') && !('a' <= text[i] <= 'z') && text[i] !in " -<>"
    ensures FormatBand(Str(text)) == if Contains(text, "3+") then OverThree else text
  {
    LowerNoUpper(text);
    FormatBandBySymbols(Str(text));
  }

  lemma LettersHaveNoDigits(b: string)
    requires forall i :: 0 <= i < |b| ==> 'a' <= b[i] <= 'z'
    ensures '1' !in b && '2' !in b && '3' !in b
  {
  }

  /** Neither "mid" nor an expensive word occurs when one letter of each is missing. */
  lemma NoMidOrExpensiveWord(b: string, m: char, x: char, p: char, h: char)
    requires m in "mid" && x in "expensive" && p in "premium" && h in "high"
    requires m !in b && x !in b && p !in b && h !in b
    ensures !Contains(b, "mid") && !Contains(b, "expensive") && !Contains(b, "premium")
      && !Contains(b, "high")
  {
    AbsentChar(b, "mid", m);
    AbsentChar(b, "expensive", x);
    AbsentChar(b, "premium", p);
    AbsentChar(b, "high", h);
  }

  lemma FormatBandLessThanOne()
    ensures FormatBand(Str("less than 1")) == UpToOne
  {
    assert BandText(Str("less than 1")) == "less than 1";
  }

  lemma FormatBandBudget()
    ensures FormatBand(Str("budget")) == UpToOne
  {
    var s := "budget";
    LowerNoUpper(s);
    LettersHaveNoDigits(s);
    NoMidOrExpensiveWord(s, 'm', 'x', 'p', 'h');
    assert StartsWith(s, "budget");
    FormatBandByWords(Str(s));
  }

  lemma FormatBandPremium()
    ensures FormatBand(Str("premium")) == OverThree
  {
    var s := "premium";
    LowerNoUpper(s);
    LettersHaveNoDigits(s);
    AbsentChar(s, "mid", 'd');
    assert StartsWith(s, "premium");
    FormatBandByWords(Str(s));
  }

  /** The labels FormatBand produces are fixed points of it. */
  lemma FormatBandLabelStable(text: string)
    requires text in {UpToOne, OneToTwo, TwoToThree, OverThree, Dash}
    ensures FormatBand(Str(text)) == text
  {
    FormatBandSymbolText(text);
    if text != OverThree {
      assert '+' !in text;
      AbsentChar(text, "3+", '+');
    }
  }

  /** Formatting is idempotent: formatting a non-empty formatted label gives it back. */
  lemma FormatBandIdempotent(band: Value)
    requires FormatBand(band) != ""
    ensures FormatBand(Str(FormatBand(band))) == FormatBand(band)
  {
    var r := FormatBand(band);
    if !Truthy(band) || r != ToStr(band) {
      FormatBandLabelStable(r);
    } else {
      assert BandText(Str(r)) == BandText(band);
    }
  }

  // ---------------------------------------------------------------------------
  // Per-row derivations

  /** The fields of an entry-fee record that the index page reads; a field the
      record does not set is `Undefined`. */
  datatype EntryFields = EntryFields(
    id: Value,
    raceEvent: Value,
    country: Value,
    region: Value,
    feeUsed: Value,
    eurPerKm: Value,
    raceSlug: Option<seq<string>>)

  /** A fee or a per-km rate is kept only when it is a number above zero. */
  function PositiveNumber(raw: Value): (r: Option<real>)
    ensures r.Some? <==> raw.Num? && raw.x > 0.0
    ensures r.Some? ==> r.value == raw.x
  {
    if raw.Num? && raw.x > 0.0 then Some(raw.x) else None
  }

  /** What the per-km price cell shows: the placeholder dash, or a euro amount. */
  datatype PriceCell = Placeholder | Euro(amount: real)

  function PerKmCell(epk: Option<real>): (r: PriceCell)
    ensures r == Placeholder <==> epk.None?
    ensures r.Euro? ==> r.amount == epk.value
  {
    match epk
    case None => Placeholder
    case Some(x) => Euro(x)
  }

  /** A zero, negative or non-numeric rate shows the placeholder, never a euro amount. */
  lemma PerKmCellNeverZero(raw: Value)
    ensures PerKmCell(PositiveNumber(raw)) == Placeholder <==> !(raw.Num? && raw.x > 0.0)
    ensures PerKmCell(PositiveNumber(raw)).Euro? ==> PerKmCell(PositiveNumber(raw)).amount > 0.0
  {
  }

  /** Country and region, empty parts dropped, joined by " · ". */
  function Location(country: string, region: string): (r: string)
    ensures country != "" && region != "" ==> r == country + " \U{00B7} " + region
    ensures country != "" && region == "" ==> r == country
    ensures country == "" ==> r == region
  {
    assert [country, region][1..] == [region] && [region][1..] == [];
    assert NonEmpty([region]) == if region != "" then [region] else [];
    assert country != "" && region != "" ==> NonEmpty([country, region]) == [country, region];
    assert Join([region], " \U{00B7} ") == region;
    assert Join([country, region], " \U{00B7} ") == country + " \U{00B7} " + Join([region], " \U{00B7} ");
    Join(NonEmpty([country, region]), " \U{00B7} ")
  }

  /** The race name: the `ID` text, or the `Race Event` text when that is empty. */
  function RaceName(id: Value, raceEvent: Value): (r: string)
    ensures r == "" <==> AsText(id) == "" && AsText(raceEvent) == ""
  {
    var name := AsText(id);
    if name != "" then name else AsText(raceEvent)
  }

  /** The `ID` text wins whenever it is non-empty; otherwise the `Race Event` text is shown. */
  lemma RaceNameFallsBack(id: Value, raceEvent: Value)
    ensures AsText(id) != "" ==> RaceName(id, raceEvent) == AsText(id)
    ensures AsText(id) == "" ==> RaceName(id, raceEvent) == AsText(raceEvent)
  {
  }

  /** A numeric ID is shown even when it is zero; an empty ID falls back to the event. */
  lemma RaceNameFallback(event: string, text: string)
    requires text != "" && event != ""
    ensures RaceName(Num(0.0, text), Str(event)) == text
    ensures RaceName(Undefined, Arr([Str(event)])) == event
    ensures RaceName(Arr([Str(""), Null]), Str(event)) == event
  {
    AsTextStrings([event]);
    assert Strs([event]) == [Str(event)];
    assert NonEmpty([event]) == [event];
    assert AsText(Arr([Str(""), Null])) == "" by {
      assert FilterTruthy([Str(""), Null]) == [];
    }
  }

  /** `f["Race Slug"]?.[0]`. */
  function Slug(raceSlug: Option<seq<string>>): (r: Option<string>)
    ensures r.Some? <==> raceSlug.Some? && |raceSlug.value| > 0
    ensures r.Some? ==> r.value == raceSlug.value[0]
  {
    if raceSlug.Some? && |raceSlug.value| > 0 then Some(raceSlug.value[0]) else None
  }

  const RacesPrefix := "/races/"

  /** The row's link target, present only when the slug is a non-empty string. */
  function RowHref(slug: Option<string>): (r: Option<string>)
    ensures r.Some? <==> slug.Some? && slug.value != ""
    ensures r.Some? ==> StartsWith(r.value, RacesPrefix) && |r.value| > |RacesPrefix|
  {
    if slug.Some? && slug.value != "" then Some(RacesPrefix + slug.value) else None
  }

  /** The slug a row link points at. */
  function HrefSlug(href: string): Option<string> {
    if StartsWith(href, RacesPrefix) then Some(href[|RacesPrefix|..]) else None
  }

  /** The link carries the first slug unchanged. */
  lemma RowHrefRoundTrip(raceSlug: Option<seq<string>>)
    ensures RowHref(Slug(raceSlug)).Some? <==>
      raceSlug.Some? && |raceSlug.value| > 0 && raceSlug.value[0] != ""
    ensures RowHref(Slug(raceSlug)).Some? ==>
      HrefSlug(RowHref(Slug(raceSlug)).value) == Some(raceSlug.value[0])
  {
    if RowHref(Slug(raceSlug)).Some? {
      assert (RacesPrefix + raceSlug.value[0])[|RacesPrefix|..] == raceSlug.value[0];
    }
  }

  /** The display-ready values of one row. */
  datatype Row = Row(
    fee: Option<real>,
    eurPerKm: Option<real>,
    location: string,
    raceName: string,
    href: Option<string>)

  function DeriveRow(f: EntryFields): (r: Row)
    ensures r.fee.Some? ==> r.fee.value > 0.0 && f.feeUsed.Num? && f.feeUsed.x == r.fee.value
    ensures r.eurPerKm.Some? ==> r.eurPerKm.value > 0.0 && f.eurPerKm.Num? && f.eurPerKm.x == r.eurPerKm.value
    ensures r.href.Some? ==> StartsWith(r.href.value, RacesPrefix)
  {
    Row(PositiveNumber(f.feeUsed),
        PositiveNumber(f.eurPerKm),
        Location(AsText(f.country), AsText(f.region)),
        RaceName(f.id, f.raceEvent),
        RowHref(Slug(f.raceSlug)))
  }

  /** What every derived row promises: prices are positive when present, the
      location is empty only when both of its parts are, and the link exists
      exactly when the first slug is non-empty. */
  lemma DeriveRowProperties(f: EntryFields)
    ensures DeriveRow(f).fee.Some? ==> DeriveRow(f).fee.value > 0.0
    ensures DeriveRow(f).eurPerKm.Some? ==> DeriveRow(f).eurPerKm.value > 0.0
    ensures DeriveRow(f).eurPerKm.None? <==> !(f.eurPerKm.Num? && f.eurPerKm.x > 0.0)
    ensures DeriveRow(f).location == "" <==> AsText(f.country) == "" && AsText(f.region) == ""
    ensures DeriveRow(f).href.Some? <==>
      f.raceSlug.Some? && |f.raceSlug.value| > 0 && f.raceSlug.value[0] != ""
  {
  }
}

/**
 * The record normaliser of the `/api/products` handler: the loop that turns
 * spreadsheet records into storefront products, with `extractImages` and the
 * placeholder image for a product without pictures.
 */
module ProductsApi {
  import opened Wrappers
  import opened Seqs
  import opened Numerals
  import CategoryGlyphs

  /**
   * One element of an attachment array. `url == ""` stands for an element
   * without a truthy `url`: null, not an object, or an object whose `url` is
   * missing or empty.
   */
  datatype Attachment = Attachment(url: string)

  /** A field value as the spreadsheet API returns it. */
  datatype Value =
    | Absent                        // undefined or null
    | Text(text: string)
    | Number(number: int)
    | Flag(flag: bool)              // a checkbox
    | Files(files: seq<Attachment>) // an array of attachments
    | File(file: Attachment)        // a single object

  /** JavaScript truthiness: arrays and objects are truthy even when empty. */
  predicate Truthy(v: Value) {
    match v
    case Absent => false
    case Text(s) => s != ""
    case Number(n) => n != 0
    case Flag(b) => b
    case Files(_) => true
    case File(_) => true
  }

  /** `record.fields` as its entries, in the order `Object.entries` lists them. */
  type Fields = seq<(string, Value)>

  /** A record; a record without `fields` has no entries (`record.fields || {}`). */
  datatype Record = Record(id: string, fields: Fields)

  /** `fields[key]`: the value of the entry named `key`, or Absent when there is none. */
  function Lookup(fields: Fields, key: string): (v: Value)
    ensures (forall i :: 0 <= i < |fields| ==> fields[i].0 != key) ==> v == Absent
  {
    if fields == [] then Absent
    else if fields[0].0 == key then fields[0].1
    else Lookup(fields[1..], key)
  }

  /** The value read for `key` is the one of the first entry named `key`. */
  lemma {:induction false} LookupFirst(fields: Fields, key: string, k: nat)
    requires k < |fields| && fields[k].0 == key
    requires forall j :: 0 <= j < k ==> fields[j].0 != key
    ensures Lookup(fields, key) == fields[k].1
  {
    if k > 0 {
      LookupFirst(fields[1..], key, k - 1);
    }
  }

  /**
   * `fields[keys[0]] || fields[keys[1]] || ... || fallback`: the value of the
   * first key whose value is truthy, or `fallback` when none is.
   */
  function FirstTruthy(fields: Fields, keys: seq<string>, fallback: Value): (v: Value)
    ensures Truthy(v) || v == fallback
  {
    if keys == [] then fallback
    else if Truthy(Lookup(fields, keys[0])) then Lookup(fields, keys[0])
    else FirstTruthy(fields, keys[1..], fallback)
  }

  /** `keys[k]` is the first key whose value is truthy. */
  predicate FirstTruthyAt(fields: Fields, keys: seq<string>, k: int) {
    && 0 <= k < |keys|
    && Truthy(Lookup(fields, keys[k]))
    && forall j :: 0 <= j < k ==> !Truthy(Lookup(fields, keys[j]))
  }

  /** The `||` chain picks the value of the first key that has a truthy one, and the fallback only when none has. */
  lemma {:induction false} FirstTruthySpec(fields: Fields, keys: seq<string>, fallback: Value)
    ensures (forall i :: 0 <= i < |keys| ==> !Truthy(Lookup(fields, keys[i]))) ==> FirstTruthy(fields, keys, fallback) == fallback
    ensures forall k :: FirstTruthyAt(fields, keys, k) ==> FirstTruthy(fields, keys, fallback) == Lookup(fields, keys[k])
    ensures (exists i :: 0 <= i < |keys| && Truthy(Lookup(fields, keys[i]))) ==> exists k :: FirstTruthyAt(fields, keys, k)
    decreases |keys|
  {
    if keys != [] && !Truthy(Lookup(fields, keys[0])) {
      var tail := keys[1..];
      FirstTruthySpec(fields, tail, fallback);
      assert forall i :: 1 <= i < |keys| ==> tail[i - 1] == keys[i];
      forall k | FirstTruthyAt(fields, keys, k)
        ensures FirstTruthyAt(fields, tail, k - 1)
      {
      }
      if exists i :: 0 <= i < |keys| && Truthy(Lookup(fields, keys[i])) {
        var i :| 0 <= i < |keys| && Truthy(Lookup(fields, keys[i]));
        assert Truthy(Lookup(fields, tail[i - 1]));
        var k :| FirstTruthyAt(fields, tail, k);
        assert FirstTruthyAt(fields, keys, k + 1);
      }
    } else if keys != [] {
      assert FirstTruthyAt(fields, keys, 0);
    }
  }

  const NameKeys: seq<string> := ["نام", "Name", "Product Name"]
  const CodeKeys: seq<string> := ["کود", "Code", "Product Code"]
  const DescriptionKeys: seq<string> := ["توضیح", "Description", "توضیحات"]
  const FullDescriptionKeys: seq<string> := ["توضیح کامل", "Full Description", "توضیحات کامل"]
  const PriceKeys: seq<string> := ["قیمت", "Price", "قیمت (افغانی)"]
  const StockKeys: seq<string> := ["موجودی", "Stock", "تعداد"]
  const CategoryKeys: seq<string> := ["دسته\U{200C}بندی", "Category", "دسته"]
  /** The field names searched for pictures first, in this order. */
  const ImageFieldNames: seq<string> := ["تصویر", "عکس", "Image", "Picture", "Photo"]

  const UnnamedProduct: string := "محصول بدون نام"
  const NoDescription: string := "بدون توضیح"
  const ZeroPrice: string := "0 افغانی"

  /** A record is kept when one of its name fields is truthy. */
  predicate HasName(fields: Fields) {
    Truthy(Lookup(fields, NameKeys[0])) || Truthy(Lookup(fields, NameKeys[1])) || Truthy(Lookup(fields, NameKeys[2]))
  }

  // ---- parseInt ----

  /** The longest prefix of `s` whose characters all satisfy `ok`. */
  function LongestPrefix(s: string, ok: char -> bool): (p: string)
    ensures |p| <= |s| && forall i :: 0 <= i < |p| ==> p[i] == s[i]
    ensures forall i :: 0 <= i < |p| ==> ok(p[i])
    ensures |p| < |s| ==> !ok(s[|p|])
  {
    if s == [] || !ok(s[0]) then [] else [s[0]] + LongestPrefix(s[1..], ok)
  }

  /** How many white-space characters `s` starts with. */
  function LeadingSpaces(s: string): (n: nat)
    ensures n <= |s|
    ensures forall i :: 0 <= i < n ==> IsJsSpace(s[i])
    ensures n < |s| ==> !IsJsSpace(s[n])
  {
    if s == [] || !IsJsSpace(s[0]) then 0 else 1 + LeadingSpaces(s[1..])
  }

  /** `s` without its leading white space, as `parseInt` first reads it. */
  function TrimStart(s: string): string {
    s[LeadingSpaces(s)..]
  }

  predicate IsHexDigit(c: char) {
    IsDigit(c) || 'a' <= c <= 'f' || 'A' <= c <= 'F'
  }

  function HexDigitValue(c: char): (d: nat)
    requires IsHexDigit(c)
    ensures d < 16
  {
    if IsDigit(c) then DigitValue(c)
    else if 'a' <= c <= 'f' then c as int - 'a' as int + 10
    else c as int - 'A' as int + 10
  }

  function HexValue(h: string): nat
    requires forall i :: 0 <= i < |h| ==> IsHexDigit(h[i])
  {
    if h == [] then 0 else HexValue(h[..|h| - 1]) * 16 + HexDigitValue(h[|h| - 1])
  }

  /** The number spelled at the start of `body`, after any sign: hexadecimal after `0x`/`0X`, else decimal. */
  function ParseMagnitude(body: string): (r: Option<nat>)
    ensures r.None? <==> if |body| >= 2 && body[0] == '0' && (body[1] == 'x' || body[1] == 'X')
                         then body[2..] == [] || !IsHexDigit(body[2])
                         else body == [] || !IsDigit(body[0])
  {
    if |body| >= 2 && body[0] == '0' && (body[1] == 'x' || body[1] == 'X') then
      var h := LongestPrefix(body[2..], IsHexDigit);
      if h == [] then None else Some(HexValue(h))
    else
      var d := LongestPrefix(body, IsDigit);
      if d == [] then None else Some(ValueOf(d))
  }

  /**
   * `parseInt(s)` with no radix, None standing for NaN: leading white space
   * is skipped, one sign is allowed, `0x`/`0X` switches to base 16, and the
   * longest run of digits that follows is read; no digit at all is NaN.
   */
  function ParseInt(s: string): (r: Option<int>)
    ensures r.Some? ==> HasNonSpace(s)
    ensures |s| > 0 && IsDigit(s[0]) && !(|s| >= 2 && s[0] == '0' && (s[1] == 'x' || s[1] == 'X')) ==> r.Some?
  {
    ParseTrimmed(TrimStart(s))
  }

  /** `parseInt` once the white space is gone: an optional sign, then the magnitude. */
  function ParseTrimmed(t: string): (r: Option<int>)
    ensures r.None? <==> ParseMagnitude(if |t| > 0 && (t[0] == '-' || t[0] == '+') then t[1..] else t).None?
  {
    var body := if |t| > 0 && (t[0] == '-' || t[0] == '+') then t[1..] else t;
    var sign := if |t| > 0 && t[0] == '-' then -1 else 1;
    match ParseMagnitude(body)
    case None => None
    case Some(m) => Some(sign * m)
  }

  /** `String(n)` for a whole number. */
  function SignedDecimal(n: int): (s: string)
    ensures |s| >= 1
  {
    if n < 0 then "-" + DecimalString(-n) else DecimalString(n)
  }

  /** The digits of a string of digits are all of it. */
  lemma {:induction false} LongestPrefixAll(s: string, ok: char -> bool)
    requires forall i :: 0 <= i < |s| ==> ok(s[i])
    ensures LongestPrefix(s, ok) == s
    decreases |s|
  {
    if s != [] {
      LongestPrefixAll(s[1..], ok);
    }
  }

  /** A decimal numeral reads back as its value. */
  lemma ParseMagnitudeDecimal(m: nat)
    ensures ParseMagnitude(DecimalString(m)) == Some(m)
  {
    var d := DecimalString(m);
    LongestPrefixAll(d, IsDigit);
    ValueOfDecimal(m);
    assert |d| >= 2 ==> IsDigit(d[1]);
  }

  /** `String(n)` starts with a sign or a digit, so there is no white space to skip. */
  lemma SignedDecimalUntrimmed(n: int)
    ensures TrimStart(SignedDecimal(n)) == SignedDecimal(n)
  {
    var s := SignedDecimal(n);
    assert s[0] == '-' || IsDigit(s[0]);
  }

  lemma SignedDecimalMagnitude(n: int)
    ensures ParseTrimmed(SignedDecimal(n)) == Some(n)
  {
    var s := SignedDecimal(n);
    if n < 0 {
      ParseMagnitudeDecimal(-n);
      assert s[1..] == DecimalString(-n);
    } else {
      ParseMagnitudeDecimal(n);
      assert IsDigit(s[0]);
    }
  }

  /** `parseInt` reads back every whole number `String` writes. */
  lemma ParseIntSignedDecimal(n: int)
    ensures ParseInt(SignedDecimal(n)) == Some(n)
  {
    SignedDecimalUntrimmed(n);
    SignedDecimalMagnitude(n);
  }

  /** Leading white space does not change what `parseInt` reads. */
  lemma ParseIntSkipsSpace(c: char, s: string)
    requires IsJsSpace(c)
    ensures ParseInt([c] + s) == ParseInt(s)
  {
    assert ([c] + s)[1..] == s;
    assert LeadingSpaces([c] + s) == 1 + LeadingSpaces(s);
    assert TrimStart([c] + s) == TrimStart(s);
  }

  /** A string whose first visible character is neither a sign nor a digit is NaN. */
  lemma ParseIntNoDigit(s: string)
    requires TrimStart(s) == [] || (!IsDigit(TrimStart(s)[0]) && TrimStart(s)[0] != '-' && TrimStart(s)[0] != '+')
    ensures ParseInt(s) == None
  {
  }

  /**
   * The stock of `parseInt(value)`: the value is first turned into a string.
   * A boolean gives "true" or "false", an object "[object Object]", and an
   * array of attachments the joined strings of its elements, which is empty
   * or starts with `[` or `,`; none of these holds a digit that `parseInt`
   * reaches, so all of them are NaN.
   */
  function StockOf(v: Value): (r: Option<int>)
    ensures v.Number? ==> r == Some(v.number)
  {
    match v
    case Absent => None
    case Text(s) => ParseInt(s)
    case Number(n) =>
      ParseIntSignedDecimal(n);
      ParseInt(SignedDecimal(n))
    case Flag(b) => ParseInt(if b then "true" else "false")
    case Files(_) => None
    case File(_) => None
  }

  // ---- images ----

  /** `attachments.filter(att => att && att.url).map(att => att.url)`. */
  function Urls(files: seq<Attachment>): (urls: seq<string>)
    ensures |urls| <= |files|
    ensures forall i :: 0 <= i < |urls| ==> urls[i] != ""
  {
    if files == [] then []
    else
      var last := files[|files| - 1];
      Urls(files[..|files| - 1]) + (if last.url != "" then [last.url] else [])
  }

  /** The urls come out in the order of the attachments that carry them. */
  lemma {:induction false} UrlsConcat(a: seq<Attachment>, b: seq<Attachment>)
    ensures Urls(a + b) == Urls(a) + Urls(b)
    decreases |b|
  {
    if b == [] {
      assert a + b == a;
    } else {
      assert (a + b)[..|a + b| - 1] == a + b[..|b| - 1];
      UrlsConcat(a, b[..|b| - 1]);
    }
  }

  /** A url is extracted exactly when some attachment carries it. */
  lemma {:induction false} UrlsMembers(files: seq<Attachment>)
    ensures forall x :: x in Urls(files) <==> x != "" && exists i :: 0 <= i < |files| && files[i].url == x
    decreases |files|
  {
    if files != [] {
      var init := files[..|files| - 1];
      UrlsMembers(init);
      assert files == init + [files[|files| - 1]];
      forall x | x != "" && exists i :: 0 <= i < |files| && files[i].url == x
        ensures x in Urls(files)
      {
        var i :| 0 <= i < |files| && files[i].url == x;
        if i < |init| {
          assert init[i].url == x;
        }
      }
      forall x | x in Urls(files)
        ensures exists i :: 0 <= i < |files| && files[i].url == x
      {
        if x in Urls(init) {
          var i :| 0 <= i < |init| && init[i].url == x;
          assert files[i].url == x;
        } else {
          assert files[|files| - 1].url == x;
        }
      }
    }
  }

  /**
   * `extractImages`: nothing for a falsy value; the urls of an attachment
   * array; the url of a single object that has one; and nothing for any other
   * value, whose `url` property is undefined.
   */
  function ExtractImages(v: Value): (urls: seq<string>)
    ensures forall i :: 0 <= i < |urls| ==> urls[i] != ""
    ensures !(v.Files? || v.File?) ==> urls == []
  {
    if !Truthy(v) then []
    else match v
      case Files(files) => Urls(files)
      case File(a) => if a.url != "" then [a.url] else []
      case _ => []
  }

  /** Which urls `extractImages` returns, independently of how it walks the value. */
  lemma ExtractImagesSpec(v: Value)
    ensures forall x :: x in ExtractImages(v) <==>
      x != "" && ((v.Files? && exists i :: 0 <= i < |v.files| && v.files[i].url == x) || (v.File? && v.file.url == x))
  {
    if v.Files? {
      UrlsMembers(v.files);
    }
  }

  /** The first loop: the urls of the fixed image fields among `names`, in that order. */
  function NamedImages(fields: Fields, names: seq<string>): (urls: seq<string>)
    ensures forall i :: 0 <= i < |urls| ==> urls[i] != ""
  {
    if names == [] then []
    else
      var value := Lookup(fields, names[|names| - 1]);
      NamedImages(fields, names[..|names| - 1]) + (if Truthy(value) then ExtractImages(value) else [])
  }

  /** One more field name: what the first loop appends for it. */
  lemma NamedImagesStep(fields: Fields, names: seq<string>, n: nat)
    requires n < |names|
    ensures NamedImages(fields, names[..n + 1]) ==
      NamedImages(fields, names[..n]) +
      (if Truthy(Lookup(fields, names[n])) then ExtractImages(Lookup(fields, names[n])) else [])
  {
    assert names[..n + 1][..n] == names[..n];
  }

  /** The second loop's test: the lower-cased key mentions `image` or `pic`, or the value is an array whose first element has a url. */
  predicate IsImageEntry(key: string, value: Value) {
    Contains(AsciiLower(key), "image") || Contains(AsciiLower(key), "pic") ||
    (value.Files? && |value.files| > 0 && value.files[0].url != "")
  }

  /** The second loop: the urls of every entry that passes `IsImageEntry`, in entry order. */
  function EntryImages(entries: Fields): (urls: seq<string>)
    ensures forall i :: 0 <= i < |urls| ==> urls[i] != ""
  {
    if entries == [] then []
    else
      var last := entries[|entries| - 1];
      EntryImages(entries[..|entries| - 1]) + (if IsImageEntry(last.0, last.1) then ExtractImages(last.1) else [])
  }

  /** One more entry: what the second loop appends for it. */
  lemma EntryImagesStep(entries: Fields, e: nat)
    requires e < |entries|
    ensures EntryImages(entries[..e + 1]) ==
      EntryImages(entries[..e]) +
      (if IsImageEntry(entries[e].0, entries[e].1) then ExtractImages(entries[e].1) else [])
  {
    assert entries[..e + 1][..e] == entries[..e];
  }

  /** `foundImages` after both loops, duplicates included. */
  function FoundImages(fields: Fields): (urls: seq<string>)
    ensures forall i :: 0 <= i < |urls| ==> urls[i] != ""
  {
    NamedImages(fields, ImageFieldNames) + EntryImages(fields)
  }

  /** Every url found comes from one of the fixed image fields or from an entry that passes the test. */
  lemma {:induction false} NamedImagesMembers(fields: Fields, names: seq<string>)
    ensures forall x :: x in NamedImages(fields, names) <==>
      exists k :: 0 <= k < |names| && x in ExtractImages(Lookup(fields, names[k]))
    decreases |names|
  {
    if names != [] {
      var init := names[..|names| - 1];
      NamedImagesMembers(fields, init);
      forall x | x in NamedImages(fields, names)
        ensures exists k :: 0 <= k < |names| && x in ExtractImages(Lookup(fields, names[k]))
      {
        if x in NamedImages(fields, init) {
          var k :| 0 <= k < |init| && x in ExtractImages(Lookup(fields, init[k]));
          assert names[k] == init[k];
        } else {
          assert x in ExtractImages(Lookup(fields, names[|names| - 1]));
        }
      }
      forall x, k | 0 <= k < |names| && x in ExtractImages(Lookup(fields, names[k]))
        ensures x in NamedImages(fields, names)
      {
        if k < |init| {
          assert names[k] == init[k];
        }
      }
    }
  }

  lemma {:induction false} EntryImagesMembers(entries: Fields)
    ensures forall x :: x in EntryImages(entries) <==>
      exists k :: 0 <= k < |entries| && IsImageEntry(entries[k].0, entries[k].1) && x in ExtractImages(entries[k].1)
    decreases |entries|
  {
    if entries != [] {
      var init := entries[..|entries| - 1];
      EntryImagesMembers(init);
      forall x | x in EntryImages(entries)
        ensures exists k :: 0 <= k < |entries| && IsImageEntry(entries[k].0, entries[k].1) && x in ExtractImages(entries[k].1)
      {
        if x in EntryImages(init) {
          var k :| 0 <= k < |init| && IsImageEntry(init[k].0, init[k].1) && x in ExtractImages(init[k].1);
          assert entries[k] == init[k];
        }
      }
      forall x, k | 0 <= k < |entries| && IsImageEntry(entries[k].0, entries[k].1) && x in ExtractImages(entries[k].1)
        ensures x in EntryImages(entries)
      {
        if k < |init| {
          assert entries[k] == init[k];
        }
      }
    }
  }

  /** The first image loop: the urls of the fixed image fields, in the order of `ImageFieldNames`. */
  method NamedFieldImages(fields: Fields) returns (foundImages: seq<string>)
    ensures foundImages == NamedImages(fields, ImageFieldNames)
  {
    foundImages := [];
    var n := 0;
    while n < |ImageFieldNames|
      invariant 0 <= n <= |ImageFieldNames|
      invariant foundImages == NamedImages(fields, ImageFieldNames[..n])
    {
      var fieldValue := Lookup(fields, ImageFieldNames[n]);
      if Truthy(fieldValue) {
        var extracted := ExtractImages(fieldValue);
        foundImages := foundImages + extracted;
      }
      NamedImagesStep(fields, ImageFieldNames, n);
      n := n + 1;
    }
    assert ImageFieldNames[..n] == ImageFieldNames;
  }

  /** The second image loop: appends the urls of every entry that passes the image test, in entry order. */
  method AppendEntryImages(fields: Fields, found: seq<string>) returns (foundImages: seq<string>)
    ensures foundImages == found + EntryImages(fields)
  {
    foundImages := found;
    var e := 0;
    while e < |fields|
      invariant 0 <= e <= |fields|
      invariant foundImages == found + EntryImages(fields[..e])
    {
      var (key, value) := fields[e];
      if IsImageEntry(key, value) {
        var extracted := ExtractImages(value);
        foundImages := foundImages + extracted;
      }
      EntryImagesStep(fields, e);
      e := e + 1;
    }
    assert fields[..e] == fields;
  }

  /** Both image loops of the normaliser, one after the other. */
  method GatherImages(fields: Fields) returns (foundImages: seq<string>)
    ensures foundImages == FoundImages(fields)
  {
    foundImages := NamedFieldImages(fields);
    foundImages := AppendEntryImages(fields, foundImages);
  }

  /** The opening and closing text of the placeholder image's SVG data URL. */
  const SvgHead: string := "data:image/svg+xml,<svg xmlns=\"http://www.w3.org/2000/svg\" width=\"400\" height=\"300\" viewBox=\"0 0 100 100\"><rect width=\"100\" height=\"100\" fill=\"%23f5f5f5\"/><text x=\"50\" y=\"50\" font-size=\"40\" text-anchor=\"middle\" dy=\".3em\" fill=\"%23999\">"
  const SvgTail: string := "</text></svg>"

  /** The placeholder picture: an SVG data URL showing `emoji`. */
  function PlaceholderImage(emoji: string): (url: string)
    ensures |url| == |SvgHead| + |emoji| + |SvgTail|
    ensures forall i :: 0 <= i < |emoji| ==> url[|SvgHead| + i] == emoji[i]
  {
    SvgHead + emoji + SvgTail
  }

  /**
   * `getCategoryPlaceholder(product.category)`: a text category is looked up
   * in the glyph table; any other value becomes a property key that is not
   * in the table, so it gets the default glyph.
   */
  function CategoryGlyph(category: Value): string {
    if category.Text? then CategoryGlyphs.CategoryPlaceholder(category.text) else CategoryGlyphs.DefaultGlyph
  }

  /** `[...new Set(foundImages)]`, or the single placeholder when that is empty. */
  function ProductImages(found: seq<string>, category: Value): (images: seq<string>)
    ensures |images| >= 1 && NoDups(images)
    ensures (forall i :: 0 <= i < |found| ==> found[i] != "") ==> forall i :: 0 <= i < |images| ==> images[i] != ""
  {
    var unique := Dedup(found);
    if unique == [] then [PlaceholderImage(CategoryGlyph(category))]
    else
      assert forall i :: 0 <= i < |unique| ==> unique[i] in found;
      unique
  }

  /** A product as the handler returns it. */
  datatype ApiProduct = ApiProduct(
    id: string, name: Value, code: Value, description: Value, fullDescription: Value,
    price: Value, stock: Option<int>, category: Value, images: seq<string>)

  /** `record.id.substring(0, 4)`. */
  function IdPrefix(id: string): (prefix: string)
    ensures |prefix| <= 4 && |prefix| <= |id| && forall i :: 0 <= i < |prefix| ==> prefix[i] == id[i]
    ensures |id| >= 4 ==> |prefix| == 4
  {
    id[..if |id| < 4 then |id| else 4]
  }

  /** The product object literal of the loop, before its images are filled in. */
  function BaseProduct(record: Record): ApiProduct {
    var fields := record.fields;
    ApiProduct(
      record.id,
      FirstTruthy(fields, NameKeys, Text(UnnamedProduct)),
      FirstTruthy(fields, CodeKeys, Text("CODE-" + IdPrefix(record.id))),
      FirstTruthy(fields, DescriptionKeys, Text(NoDescription)),
      FirstTruthy(fields, FullDescriptionKeys + DescriptionKeys, Text(NoDescription)),
      FirstTruthy(fields, PriceKeys, Text(ZeroPrice)),
      StockOf(FirstTruthy(fields, StockKeys, Number(0))),
      FirstTruthy(fields, CategoryKeys, Text(CategoryGlyphs.GeneralCategory)),
      [])
  }

  /** The product the loop builds for a record that has a name. */
  function BuildProduct(record: Record): (p: ApiProduct)
    ensures p.id == record.id && |p.images| >= 1 && NoDups(p.images)
    ensures forall i :: 0 <= i < |p.images| ==> p.images[i] != ""
  {
    var base := BaseProduct(record);
    base.(images := ProductImages(FoundImages(record.fields), base.category))
  }

  /** The products the loop emits: one per named record, in record order. */
  function Normalised(records: seq<Record>): (products: seq<ApiProduct>)
    ensures |products| <= |records|
    ensures forall i :: 0 <= i < |products| ==> |products[i].images| >= 1 && NoDups(products[i].images)
  {
    if records == [] then []
    else
      var last := records[|records| - 1];
      Normalised(records[..|records| - 1]) + (if HasName(last.fields) then [BuildProduct(last)] else [])
  }

  /** One more record: what the loop emits for it. */
  lemma NormalisedStep(records: seq<Record>, i: nat)
    requires i < |records|
    ensures Normalised(records[..i + 1]) ==
      Normalised(records[..i]) + (if HasName(records[i].fields) then [BuildProduct(records[i])] else [])
  {
    assert records[..i + 1][..i] == records[..i];
  }

  /**
   * The body of the record loop for a record that has a name: the product
   * object literal, then its images gathered, de-duplicated and, when there
   * are none, replaced by the placeholder for its category.
   */
  method NormaliseRecord(record: Record) returns (product: ApiProduct)
    ensures product == BuildProduct(record)
  {
    product := BaseProduct(record);
    var foundImages := GatherImages(record.fields);
    var images := Dedup(foundImages);
    if |images| == 0 {
      images := images + [PlaceholderImage(CategoryGlyph(product.category))];
    }
    assert images == ProductImages(foundImages, product.category);
    product := product.(images := images);
  }

  /**
   * The record loop of the handler: skips records without a name, builds a
   * product for each other record, gathers and de-duplicates its images and
   * falls back to the placeholder, and counts what it emitted.
   */
  method NormaliseRecords(records: seq<Record>) returns (products: seq<ApiProduct>, count: nat)
    ensures products == Normalised(records) && count == |products|
  {
    products := [];
    var i := 0;
    while i < |records|
      invariant 0 <= i <= |records|
      invariant products == Normalised(records[..i])
    {
      var record := records[i];
      var fields := record.fields;
      NormalisedStep(records, i);
      if !Truthy(Lookup(fields, NameKeys[0])) && !Truthy(Lookup(fields, NameKeys[1])) &&
         !Truthy(Lookup(fields, NameKeys[2])) {
        i := i + 1;
        continue;
      }
      var product := NormaliseRecord(record);
      products := products + [product];
      i := i + 1;
    }
    assert records[..i] == records;
    count := |products|;
  }

  /** The records the loop does not skip. */
  predicate IsNamed(record: Record) {
    HasName(record.fields)
  }

  /** Records without a name produce nothing; every other record produces exactly one product, in order. */
  lemma {:induction false} NormalisedIsFilterThenBuild(records: seq<Record>)
    ensures |Normalised(records)| == |Filter(records, IsNamed)|
    ensures forall i :: 0 <= i < |Filter(records, IsNamed)| ==>
      Normalised(records)[i] == BuildProduct(Filter(records, IsNamed)[i])
    decreases |records|
  {
    if records != [] {
      var init, last := records[..|records| - 1], records[|records| - 1];
      NormalisedIsFilterThenBuild(init);
      var out, named := Normalised(init), Filter(init, IsNamed);
      if IsNamed(last) {
        assert Normalised(records) == out + [BuildProduct(last)];
        assert Filter(records, IsNamed) == named + [last];
      } else {
        assert Normalised(records) == out;
        assert Filter(records, IsNamed) == named;
      }
    }
  }

  /**
   * A record that passes the name test gets a truthy name: the value of the
   * first name field that has a truthy one, never the default.
   */
  lemma BuildProductNamed(record: Record)
    requires HasName(record.fields)
    ensures Truthy(BuildProduct(record).name)
    ensures exists k :: FirstTruthyAt(record.fields, NameKeys, k) && BuildProduct(record).name == Lookup(record.fields, NameKeys[k])
  {
    var fields := record.fields;
    assert BuildProduct(record).name == FirstTruthy(fields, NameKeys, Text(UnnamedProduct));
    assert exists i :: 0 <= i < |NameKeys| && Truthy(Lookup(fields, NameKeys[i])) by {
      if Truthy(Lookup(fields, NameKeys[0])) {
      } else if Truthy(Lookup(fields, NameKeys[1])) {
      } else {
        assert Truthy(Lookup(fields, NameKeys[2]));
      }
    }
    FirstTruthySpec(fields, NameKeys, Text(UnnamedProduct));
  }

  /** With no truthy code field the code is `CODE-` followed by the first four characters of the id. */
  lemma BuildProductCode(record: Record)
    requires forall k :: 0 <= k < |CodeKeys| ==> !Truthy(Lookup(record.fields, CodeKeys[k]))
    ensures BuildProduct(record).code == Text("CODE-" + IdPrefix(record.id))
  {
    assert BuildProduct(record).code == FirstTruthy(record.fields, CodeKeys, Text("CODE-" + IdPrefix(record.id)));
    FirstTruthySpec(record.fields, CodeKeys, Text("CODE-" + IdPrefix(record.id)));
  }

  /** With no truthy full-description field the full description is the description. */
  lemma BuildProductFullDescription(record: Record)
    requires forall k :: 0 <= k < |FullDescriptionKeys| ==> !Truthy(Lookup(record.fields, FullDescriptionKeys[k]))
    ensures BuildProduct(record).fullDescription == BuildProduct(record).description
  {
    var fields := record.fields;
    assert BuildProduct(record).fullDescription == FirstTruthy(fields, FullDescriptionKeys + DescriptionKeys, Text(NoDescription));
    assert BuildProduct(record).description == FirstTruthy(fields, DescriptionKeys, Text(NoDescription));
    FirstTruthySkip(fields, FullDescriptionKeys, DescriptionKeys, Text(NoDescription));
  }

  /**
   * The stock is 0 when no stock field is truthy, the number itself when the
   * first truthy one is a number, and what `parseInt` reads when it is text.
   */
  lemma BuildProductStock(record: Record)
    ensures (forall k :: 0 <= k < |StockKeys| ==> !Truthy(Lookup(record.fields, StockKeys[k]))) ==>
      BuildProduct(record).stock == Some(0)
    ensures forall k :: FirstTruthyAt(record.fields, StockKeys, k) && Lookup(record.fields, StockKeys[k]).Number? ==>
      BuildProduct(record).stock == Some(Lookup(record.fields, StockKeys[k]).number)
    ensures forall k :: FirstTruthyAt(record.fields, StockKeys, k) && Lookup(record.fields, StockKeys[k]).Text? ==>
      BuildProduct(record).stock == ParseInt(Lookup(record.fields, StockKeys[k]).text)
  {
    assert BuildProduct(record).stock == StockOf(FirstTruthy(record.fields, StockKeys, Number(0)));
    FirstTruthySpec(record.fields, StockKeys, Number(0));
  }

  /** Keys whose values are all falsy can be dropped from the front of the key list. */
  lemma {:induction false} FirstTruthySkip(fields: Fields, skipped: seq<string>, rest: seq<string>, fallback: Value)
    requires forall k :: 0 <= k < |skipped| ==> !Truthy(Lookup(fields, skipped[k]))
    ensures FirstTruthy(fields, skipped + rest, fallback) == FirstTruthy(fields, rest, fallback)
    decreases |skipped|
  {
    if skipped != [] {
      assert (skipped + rest)[0] == skipped[0];
      assert !Truthy(Lookup(fields, skipped[0]));
      assert FirstTruthy(fields, skipped + rest, fallback) == FirstTruthy(fields, (skipped + rest)[1..], fallback);
      assert (skipped + rest)[1..] == skipped[1..] + rest;
      assert forall k :: 0 <= k < |skipped[1..]| ==> skipped[1..][k] == skipped[k + 1];
      FirstTruthySkip(fields, skipped[1..], rest, fallback);
    } else {
      assert skipped + rest == rest;
    }
  }

  /**
   * The images of a product: with nothing found, exactly the placeholder for
   * its category; otherwise exactly the urls found, each once, in the order in
   * which they were first found.
   */
  lemma ProductImagesSpec(found: seq<string>, category: Value)
    ensures found == [] ==> ProductImages(found, category) == [PlaceholderImage(CategoryGlyph(category))]
    ensures found != [] ==> forall x :: x in ProductImages(found, category) <==> x in found
    ensures found != [] ==> forall i, j :: 0 <= i < j < |ProductImages(found, category)| ==>
      FirstIndex(found, ProductImages(found, category)[i]).value < FirstIndex(found, ProductImages(found, category)[j]).value
  {
    if found != [] {
      assert found[0] in Dedup(found);
      forall i, j | 0 <= i < j < |ProductImages(found, category)|
        ensures FirstIndex(found, ProductImages(found, category)[i]).value < FirstIndex(found, ProductImages(found, category)[j]).value
      {
        DedupFirstSeenOrder(found, i, j);
      }
    }
  }

  /** A url is found exactly when a fixed image field or an image entry yields it. */
  lemma FoundImagesSpec(fields: Fields)
    ensures forall x :: x in FoundImages(fields) <==>
      (exists k :: 0 <= k < |ImageFieldNames| && x in ExtractImages(Lookup(fields, ImageFieldNames[k]))) ||
      (exists k :: 0 <= k < |fields| && IsImageEntry(fields[k].0, fields[k].1) && x in ExtractImages(fields[k].1))
  {
    NamedImagesMembers(fields, ImageFieldNames);
    EntryImagesMembers(fields);
  }
}

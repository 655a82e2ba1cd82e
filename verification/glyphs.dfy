/** The category-to-emoji table behind the image placeholders. */
module CategoryGlyphs {
  /** The category given to a product that names none; its glyph is the box. */
  const GeneralCategory: string := "عمومی"

  /** The glyph for a category the table does not list. */
  const DefaultGlyph: string := "📦"

  /**
   * `categoryEmojis`: the same 18 entries appear in `getCategoryPlaceholder`
   * and `getProductPlaceholder` of the storefront and in `getCategoryPlaceholder`
   * of the products endpoint.
   */
  const CategoryEmojis: map<string, string> :=
    map[
      "آرایشی و بهداشتی" := "💄",
      "مراقبت مو" := "🧴",
      "مراقبت پوست" := "🧴",
      "بهداشتی" := "🧼",
      "لوازم آرایشی" := "💅",
      "عطر" := "🌸",
      "کرم" := "🧴",
      "شامپو" := "🧴",
      "صابون" := "🧼",
      "لوازم خانگی" := "🏠",
      "لباس" := "👕",
      "کفش" := "👟",
      "اکسسوری" := "👜",
      "لوازم الکترونیکی" := "📱",
      "کتاب" := "📚",
      "اسباب بازی" := "🧸",
      "خوراکی" := "🍎",
      "عمومی" := "📦"
    ]

  /**
   * `getCategoryPlaceholder(category)` read as an own-property lookup: the
   * listed glyph for one of the 18 categories, the box for any other string.
   */
  function CategoryPlaceholder(category: string): (glyph: string)
    ensures category in CategoryEmojis ==> glyph == CategoryEmojis[category]
    ensures category !in CategoryEmojis ==> glyph == DefaultGlyph
  {
    if category in CategoryEmojis then CategoryEmojis[category] else DefaultGlyph
  }

  /** Every placeholder glyph is a single code point drawn from the table. */
  lemma PlaceholderIsTableGlyph(category: string)
    ensures CategoryPlaceholder(category) in CategoryEmojis.Values
    ensures |CategoryPlaceholder(category)| == 1
  {
    assert CategoryEmojis["عمومی"] == DefaultGlyph;
  }

  /**
   * What `categoryEmojis[category] || '📦'` can produce in JavaScript: the
   * object literal inherits the members of `Object.prototype`, so a category
   * spelled like one of them reads that inherited member instead of missing.
   */
  datatype PlaceholderLookup = Glyph(glyph: string) | InheritedMember(name: string)

  /** The names an object literal inherits from `Object.prototype`. */
  const ObjectPrototypeMembers: set<string> := {
    "constructor", "hasOwnProperty", "isPrototypeOf", "propertyIsEnumerable",
    "toLocaleString", "toString", "valueOf", "__proto__",
    "__defineGetter__", "__defineSetter__", "__lookupGetter__", "__lookupSetter__"
  }

  /** `getCategoryPlaceholder` as written, including the inherited-member lookups. */
  function CategoryPlaceholderAsWritten(category: string): (r: PlaceholderLookup)
    ensures r.InheritedMember? ==> category in ObjectPrototypeMembers && r.name == category
    ensures category in ObjectPrototypeMembers && category !in CategoryEmojis ==> r.InheritedMember?
    ensures r.Glyph? && category in CategoryEmojis ==> r.glyph == CategoryEmojis[category]
  {
    if category in CategoryEmojis then Glyph(CategoryEmojis[category])
    else if category in ObjectPrototypeMembers then InheritedMember(category)
    else Glyph(DefaultGlyph)
  }

  /** The category "constructor" yields the `Object` function, not the box glyph. */
  lemma AsWrittenConstructorCategory()
    ensures CategoryPlaceholderAsWritten("constructor") == InheritedMember("constructor")
    ensures CategoryPlaceholderAsWritten("constructor") != Glyph(CategoryPlaceholder("constructor"))
  {
    assert "constructor" !in CategoryEmojis;
  }

  /** Apart from the inherited names, the code as written and the corrected lookup agree. */
  lemma AsWrittenAgreesElsewhere(category: string)
    requires category !in ObjectPrototypeMembers
    ensures CategoryPlaceholderAsWritten(category) == Glyph(CategoryPlaceholder(category))
  {
  }
}

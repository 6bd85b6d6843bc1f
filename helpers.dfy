/** The text helpers of `Utils`: the 'YYYY-MM-DD' to 'DD/MM/YYYY' rewrite,
    the key that identifies a record across uploads, and the file-name
    sanitizer. */
module Utils {
  import opened Wrappers
  import opened Text
  import opened Items

  /** `formatDate`: 'N/A' for a missing or empty value; a text with exactly
      three '-'-separated parts is rewritten as `parts[2]/parts[1]/parts[0]`;
      anything else is returned as it is. */
  function FormatDate(v: Option<string>): (r: string)
    ensures !Truthy(v) ==> r == "N/A"
    ensures Truthy(v) && multiset(v.value)['-'] != 2 ==> r == v.value
  {
    if !Truthy(v) then "N/A"
    else
      var parts := Split(v.value, '-');
      SplitCount(v.value, '-');
      if |parts| == 3 then parts[2] + "/" + parts[1] + "/" + parts[0] else v.value
  }

  /** A date written as three dash-free parts comes out with the parts
      reversed and joined by '/'. */
  lemma FormatDateParts(y: string, m: string, d: string)
    requires '-' !in y && '-' !in m && '-' !in d
    ensures FormatDate(Some(y + "-" + m + "-" + d)) == d + "/" + m + "/" + y
  {
    SplitThree(y, m, d, '-');
  }

  lemma SplitThree(a: string, b: string, c: string, sep: char)
    requires sep !in a && sep !in b && sep !in c
    ensures Split(a + [sep] + b + [sep] + c, sep) == [a, b, c]
  {
    assert a + [sep] + b + [sep] + c == a + [sep] + (b + [sep] + c);
    SplitAfterSeparator(a, sep, b + [sep] + c);
    SplitAfterSeparator(b, sep, c);
    SplitWithoutSeparator(c, sep);
  }

  /** `generateUniqueKey`: ID, Semana, FechaReporte, Item and Documento, in
      that order, each as text, separated by '_'. */
  function GenerateUniqueKey(item: Item): string {
    Str(Get(item, ID)) + "_" + Str(Get(item, SEMANA)) + "_" + Str(Get(item, FECHA_REPORTE))
    + "_" + Str(Get(item, ITEM)) + "_" + Str(Get(item, DOCUMENTO))
  }

  /** The five texts a key is made of. */
  function KeyParts(item: Item): seq<string> {
    [Str(Get(item, ID)), Str(Get(item, SEMANA)), Str(Get(item, FECHA_REPORTE)),
     Str(Get(item, ITEM)), Str(Get(item, DOCUMENTO))]
  }

  /** Records that agree on the five fields have the same key. */
  lemma SameFieldsSameKey(a: Item, b: Item)
    requires KeyParts(a) == KeyParts(b)
    ensures GenerateUniqueKey(a) == GenerateUniqueKey(b)
  {
    assert KeyParts(a)[0] == KeyParts(b)[0] && KeyParts(a)[1] == KeyParts(b)[1];
    assert KeyParts(a)[2] == KeyParts(b)[2] && KeyParts(a)[3] == KeyParts(b)[3];
    assert KeyParts(a)[4] == KeyParts(b)[4];
  }

  /** When no field contains '_', splitting a key on '_' gives back its five
      parts, so such keys identify the five fields exactly. */
  lemma KeySplitsIntoParts(item: Item)
    requires forall i :: 0 <= i < 5 ==> '_' !in KeyParts(item)[i]
    ensures Split(GenerateUniqueKey(item), '_') == KeyParts(item)
  {
    var p := KeyParts(item);
    assert '_' !in p[0] && '_' !in p[1] && '_' !in p[2] && '_' !in p[3] && '_' !in p[4];
    var t3 := p[3] + ['_'] + p[4];
    var t2 := p[2] + ['_'] + t3;
    var t1 := p[1] + ['_'] + t2;
    assert GenerateUniqueKey(item) == p[0] + ['_'] + t1;
    SplitAfterSeparator(p[0], '_', t1);
    SplitAfterSeparator(p[1], '_', t2);
    SplitAfterSeparator(p[2], '_', t3);
    SplitAfterSeparator(p[3], '_', p[4]);
    SplitWithoutSeparator(p[4], '_');
  }

  /** Keys of records whose fields contain no '_' are equal only when the
      five fields are. */
  lemma KeyDeterminesParts(a: Item, b: Item)
    requires forall i :: 0 <= i < 5 ==> '_' !in KeyParts(a)[i] && '_' !in KeyParts(b)[i]
    requires GenerateUniqueKey(a) == GenerateUniqueKey(b)
    ensures KeyParts(a) == KeyParts(b)
  {
    KeySplitsIntoParts(a);
    KeySplitsIntoParts(b);
  }

  predicate IsAsciiAlphanumeric(c: char) {
    ('a' <= c <= 'z') || ('A' <= c <= 'Z') || ('0' <= c <= '9')
  }

  /** `sanitizeForFilename`: every character outside `[a-zA-Z0-9]` becomes '_'. */
  function SanitizeForFilename(s: string): (r: string)
    ensures |r| == |s|
    ensures forall i :: 0 <= i < |s| ==> IsAsciiAlphanumeric(s[i]) ==> r[i] == s[i]
    ensures forall i :: 0 <= i < |s| ==> !IsAsciiAlphanumeric(s[i]) ==> r[i] == '_'
  {
    seq(|s|, i requires 0 <= i < |s| => if IsAsciiAlphanumeric(s[i]) then s[i] else '_')
  }

  /** Sanitizing twice changes nothing more, and every character of the
      result is alphanumeric or '_'. */
  lemma SanitizeIdempotent(s: string)
    ensures SanitizeForFilename(SanitizeForFilename(s)) == SanitizeForFilename(s)
    ensures forall c :: c in SanitizeForFilename(s) ==> IsAsciiAlphanumeric(c) || c == '_'
  {
  }

  /** A name that is already alphanumeric is left unchanged. */
  lemma SanitizeKeepsSafeNames(s: string)
    requires forall i :: 0 <= i < |s| ==> IsAsciiAlphanumeric(s[i])
    ensures SanitizeForFilename(s) == s
  {
  }
}

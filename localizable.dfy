/**
 * The generators of the string catalog (`AppPorts/generate_localizable_final.py`
 * and `AppPorts/generate_localizable_v2.py`): every source key becomes one
 * catalog entry with a translated unit per language; the final generator
 * also derives a Braille rendering from the English text.
 */
module Localizable {
  import opened Outcomes

  // ----- to_braille -----

  /** The cells of the small letters a to z, in order. */
  const LetterCells: string := "⠁⠃⠉⠙⠑⠋⠛⠓⠊⠚⠅⠇⠍⠝⠕⠏⠟⠗⠎⠞⠥⠧⠺⠭⠽⠵"
  const CapitalSign: char := '⠠'
  const NumberSign: char := '⠼'

  /** The table's entries for punctuation and the space. */
  const Punctuation: seq<(char, string)> :=
    [(' ', " "), ('.', "⠲"), (',', "⠂"), ('!', "⠖"), ('?', "⠦"), ('\'', "⠄"),
     ('-', "⠤"), ('/', "⠌"), ('(', "⠐⠣"), (')', "⠐⠜"), (':', "⠒"), (';', "⠆")]

  /** The entry for `c` in a list of entries, if any. */
  function Lookup(entries: seq<(char, string)>, c: char): Option<string>
  {
    if entries == [] then None
    else if entries[0].0 == c then Some(entries[0].1)
    else Lookup(entries[1..], c)
  }

  /** The generator's table, read group by group: small letters have their
    * cell; capitals the capital sign and the small letter's cell; the
    * digits 1 to 9 and 0 the number sign and the cells of a to j; then the
    * punctuation entries. `None` for a character the table does not list. */
  function TableEntry(c: char): Option<string>
  {
    if 'a' <= c <= 'z' then Some([LetterCells[c as int - 'a' as int]])
    else if 'A' <= c <= 'Z' then Some([CapitalSign, LetterCells[c as int - 'A' as int]])
    else if '1' <= c <= '9' then Some([NumberSign, LetterCells[c as int - '1' as int]])
    else if c == '0' then Some([NumberSign, LetterCells[9]])
    else Lookup(Punctuation, c)
  }

  /** `mapping.get(char, char)`: the character's cell, or the character
    * itself when the table has no entry. */
  function Cell(c: char): string
  {
    match TableEntry(c)
    case Some(cell) => cell
    case None => [c]
  }

  /** `to_braille`: every character's cell, joined. */
  function ToBraille(text: string): string
  {
    if text == [] then "" else ToBraille(text[..|text| - 1]) + Cell(text[|text| - 1])
  }

  /** The translation of a text is the translations of its parts, joined. */
  lemma {:induction false} ToBrailleAppend(a: string, b: string)
    ensures ToBraille(a + b) == ToBraille(a) + ToBraille(b)
    decreases |b|
  {
    if b == [] {
      assert a + b == a;
    } else {
      var b' := b[..|b| - 1];
      assert (a + b)[..|a + b| - 1] == a + b';
      ToBrailleAppend(a, b');
    }
  }

  /** Characters without an entry pass through unchanged. */
  lemma {:induction false} UnlistedPassesThrough(text: string)
    requires forall i :: 0 <= i < |text| ==> TableEntry(text[i]).None?
    ensures ToBraille(text) == text
    decreases |text|
  {
    if text != [] {
      var init, last := text[..|text| - 1], text[|text| - 1];
      forall i | 0 <= i < |init| ensures TableEntry(init[i]).None? {
        assert init[i] == text[i];
      }
      UnlistedPassesThrough(init);
      UnlistedCell(last);
      InitAndLast(text);
    }
  }

  lemma InitAndLast(s: string)
    requires s != []
    ensures s[..|s| - 1] + [s[|s| - 1]] == s
  {
  }

  lemma UnlistedCell(c: char)
    requires TableEntry(c).None?
    ensures Cell(c) == [c]
  {
  }


  /** A capital is the capital sign and then its small letter's cell; a
    * digit is the number sign and then the cell of the letter in the same
    * place among a to j (1 is a, 9 is i, 0 is j); a small letter is one
    * cell. */
  lemma CellShapes(c: char)
    ensures 'A' <= c <= 'Z' ==> ToBraille([c]) == [CapitalSign] + ToBraille([(c as int + 32) as char])
    ensures '1' <= c <= '9' ==> ToBraille([c]) == [NumberSign] + ToBraille([(c as int - '1' as int + 'a' as int) as char])
    ensures c == '0' ==> ToBraille([c]) == [NumberSign] + ToBraille("j")
    ensures 'a' <= c <= 'z' ==> |ToBraille([c])| == 1
  {
    SingleChar(c);
    if 'A' <= c <= 'Z' {
      SingleChar((c as int + 32) as char);
    } else if '1' <= c <= '9' {
      SingleChar((c as int - '1' as int + 'a' as int) as char);
    } else if c == '0' {
      SingleChar('j');
    }
  }

  lemma SingleChar(c: char)
    ensures ToBraille([c]) == Cell(c)
  {
    assert [c][..0] == [];
  }

  // ----- the string catalog -----

  /** A `stringUnit`: its state and its text. */
  datatype Unit = Unit(state: string, value: string)

  /** One key's entry: how it was extracted and its unit per language. */
  datatype CatalogEntry = CatalogEntry(extractionState: string, localizations: map<string, Unit>)

  /** The `.xcstrings` document. */
  datatype Catalog = Catalog(sourceLanguage: string, strings: map<string, CatalogEntry>, version: string)

  /** The translation table as `data.items()` yields it: each key with its
    * translations by language code. */
  type Data = seq<(string, map<string, string>)>

  /** A Python dictionary's items have distinct keys. */
  predicate DistinctKeys(data: Data)
  {
    forall i, j :: 0 <= i < j < |data| ==> data[i].0 != data[j].0
  }

  function KeysOf(data: Data): set<string>
  {
    set i | 0 <= i < |data| :: data[i].0
  }

  lemma KeysOfSnoc(d: Data, x: (string, map<string, string>))
    ensures KeysOf(d + [x]) == KeysOf(d) + {x.0}
  {
    var e := d + [x];
    forall k | k in KeysOf(e) ensures k in KeysOf(d) + {x.0} {
      var i :| 0 <= i < |e| && e[i].0 == k;
      if i < |d| {
        assert d[i] == e[i];
      }
    }
    forall k | k in KeysOf(d) ensures k in KeysOf(e) {
      var i :| 0 <= i < |d| && d[i].0 == k;
      assert e[i] == d[i];
    }
    assert e[|d|] == x;
  }

  /** The 21 language codes of the final generator, Braille (`br`) last. */
  const FinalLangs: seq<string> :=
    ["en", "zh-Hans", "zh-Hant", "hi", "es", "ar", "ru", "pt", "fr", "it", "ja",
     "eo", "de", "ko", "tr", "vi", "th", "nl", "pl", "id", "br"]

  const Braille: string := "br"

  /** `dict.get(k, default)`. */
  function Get(m: map<string, string>, k: string, default: string): string
  {
    if k in m then m[k] else default
  }

  /** The text the final generator writes for `lang`: Braille from the
    * English text, or from the key when there is none; for every other
    * language its translation, or the key when there is none. */
  function ValueFor(key: string, trans: map<string, string>, lang: string): string
  {
    if lang == Braille then ToBraille(Get(trans, "en", key)) else Get(trans, lang, key)
  }

  /** The entry the final generator writes for `key`: marked manual, with
    * one unit marked translated per language of `langs`. */
  predicate IsFinalEntry(e: CatalogEntry, key: string, trans: map<string, string>, langs: seq<string>)
  {
    e.extractionState == "manual" &&
    e.localizations.Keys == (set l | l in langs) &&
    forall l :: l in e.localizations ==> e.localizations[l] == Unit("translated", ValueFor(key, trans, l))
  }

  /** The inner loop of the final generator, over the languages `langs`. */
  method FinalEntry(key: string, trans: map<string, string>, langs: seq<string>) returns (e: CatalogEntry)
    ensures IsFinalEntry(e, key, trans, langs)
  {
    var localizations: map<string, Unit> := map[];
    for j := 0 to |langs|
      invariant localizations.Keys == set l | l in langs[..j]
      invariant forall l :: l in localizations ==> localizations[l] == Unit("translated", ValueFor(key, trans, l))
    {
      var langCode := langs[j];
      var val := "";
      if langCode == Braille {
        var sourceText := if "en" in trans then trans["en"] else key;
        val := ToBraille(sourceText);
      } else {
        val := if langCode in trans then trans[langCode] else key;
      }
      localizations := localizations[langCode := Unit("translated", val)];
      assert langs[..j + 1] == langs[..j] + [langCode];
    }
    assert langs[..|langs|] == langs;
    e := CatalogEntry("manual", localizations);
  }

  /** The final generator: every key gets one unit per language of
    * `FinalLangs`, all marked translated, in an entry marked manual. */
  method GenerateFinal(data: Data) returns (catalog: Catalog)
    requires DistinctKeys(data)
    ensures catalog.sourceLanguage == "zh-Hans" && catalog.version == "1.1"
    ensures catalog.strings.Keys == KeysOf(data)
    ensures forall i :: 0 <= i < |data| ==> IsFinalEntry(catalog.strings[data[i].0], data[i].0, data[i].1, FinalLangs)
  {
    var strings: map<string, CatalogEntry> := map[];
    for n := 0 to |data|
      invariant strings.Keys == KeysOf(data[..n])
      invariant forall i :: 0 <= i < n ==> IsFinalEntry(strings[data[i].0], data[i].0, data[i].1, FinalLangs)
    {
      var (key, trans) := data[n];
      var stringEntry := FinalEntry(key, trans, FinalLangs);
      strings := strings[key := stringEntry];
      assert data[..n + 1] == data[..n] + [data[n]];
      KeysOfSnoc(data[..n], data[n]);
    }
    assert data[..|data|] == data;
    catalog := Catalog("zh-Hans", strings, "1.1");
  }

  /** The entry the older generator writes: marked manual, with exactly the
    * key's translations as units marked translated. */
  predicate IsV2Entry(e: CatalogEntry, trans: map<string, string>)
  {
    e.extractionState == "manual" &&
    e.localizations.Keys == trans.Keys &&
    forall l :: l in e.localizations ==> e.localizations[l] == Unit("translated", trans[l])
  }

  /** The inner loop of the older generator, over the key's translations. */
  method V2Entry(trans: map<string, string>) returns (e: CatalogEntry)
    ensures IsV2Entry(e, trans)
  {
    var localizations: map<string, Unit> := map[];
    var remaining := trans.Keys;
    while remaining != {}
      invariant remaining <= trans.Keys
      invariant localizations.Keys == trans.Keys - remaining
      invariant forall l :: l in localizations ==> localizations[l] == Unit("translated", trans[l])
      decreases |remaining|
    {
      var langCode :| langCode in remaining;
      localizations := localizations[langCode := Unit("translated", trans[langCode])];
      remaining := remaining - {langCode};
    }
    e := CatalogEntry("manual", localizations);
  }

  /** The older generator: every key's units are exactly its translations,
    * copied as they are; nothing falls back to the key and nothing is
    * added for Braille. */
  method GenerateV2(data: Data) returns (catalog: Catalog)
    requires DistinctKeys(data)
    ensures catalog.sourceLanguage == "zh-Hans" && catalog.version == "1.1"
    ensures catalog.strings.Keys == KeysOf(data)
    ensures forall i :: 0 <= i < |data| ==> IsV2Entry(catalog.strings[data[i].0], data[i].1)
  {
    var strings: map<string, CatalogEntry> := map[];
    for n := 0 to |data|
      invariant strings.Keys == KeysOf(data[..n])
      invariant forall i :: 0 <= i < n ==> IsV2Entry(strings[data[i].0], data[i].1)
    {
      var (key, trans) := data[n];
      var stringEntry := V2Entry(trans);
      strings := strings[key := stringEntry];
      assert data[..n + 1] == data[..n] + [data[n]];
      KeysOfSnoc(data[..n], data[n]);
    }
    assert data[..|data|] == data;
    catalog := Catalog("zh-Hans", strings, "1.1");
  }

  /** For a key translated into every language but Braille, the two
    * generators agree on every language but Braille, and the final one
    * adds the Braille rendering of the English text. */
  lemma GeneratorsAgree(key: string, trans: map<string, string>)
    requires trans.Keys == (set l | l in FinalLangs) - {Braille}
    ensures forall l :: l in trans ==> ValueFor(key, trans, l) == trans[l]
    ensures ValueFor(key, trans, Braille) == ToBraille(trans["en"])
  {
    assert FinalLangs[0] == "en";
    assert "en" != Braille;
  }

  /** A language the final generator has no translation for shows the key
    * itself; Braille falls back to the key's rendering. */
  lemma MissingFallsBackToKey(key: string, trans: map<string, string>, lang: string)
    requires lang !in trans
    ensures lang != Braille ==> ValueFor(key, trans, lang) == key
    ensures "en" !in trans ==> ValueFor(key, trans, Braille) == ToBraille(key)
  {
  }
}

/**
 * The service classifier: a demanded-service text is lower-cased and tested
 * for keywords by substring, basic-mechanics keywords first, then
 * advanced-mechanics keywords; anything else is body work.
 */
module Services {

  datatype Category = MecanicaBasica | MecanicaAvancada | Funilaria

  /** The label the simulator stores in the "categoria" column. */
  function Label(c: Category): string
  {
    match c
    case MecanicaBasica => "Mecanica Basica"
    case MecanicaAvancada => "Mecanica Avançada"
    case Funilaria => "Funilaria"
  }

  /** A capital of Basic Latin or Latin-1: A-Z and U+00C0..U+00DE except the multiplication sign U+00D7. */
  predicate IsUpper(ch: char)
  {
    'A' <= ch <= 'Z' || ('\U{C0}' <= ch <= '\U{DE}' && ch != '\U{D7}')
  }

  /** Lower-casing of one character: a capital moves up by 32, as `str.lower` does for it. */
  function LowerChar(ch: char): char
  {
    if IsUpper(ch) then (ch as int + 32) as char else ch
  }

  function Lower(s: string): (r: string)
    ensures |r| == |s|
    ensures forall i :: 0 <= i < |s| ==> !IsUpper(r[i])
    ensures forall i :: 0 <= i < |s| && !IsUpper(s[i]) ==> r[i] == s[i]
    ensures forall i :: 0 <= i < |s| && IsUpper(s[i]) ==> r[i] as int == s[i] as int + 32
  {
    seq(|s|, i requires 0 <= i < |s| => LowerChar(s[i]))
  }

  /** Lower-casing twice is lower-casing once. */
  lemma LowerIdempotent(s: string)
    ensures Lower(Lower(s)) == Lower(s)
  {
    var once := Lower(s);
    assert forall i :: 0 <= i < |s| ==> Lower(once)[i] == once[i];
  }

  /** Python's `key in text`: `key` occurs in `text` as a contiguous piece. */
  predicate Contains(text: string, key: string)
    decreases |text|
  {
    key <= text || (|text| > 0 && Contains(text[1..], key))
  }

  /** `key` starts at position `i` of `text`. */
  predicate OccursAt(text: string, key: string, i: int)
  {
    0 <= i && i + |key| <= |text| && text[i..i + |key|] == key
  }

  /** `Contains` holds exactly when the key occurs at some position. */
  lemma {:induction false} ContainsIff(text: string, key: string)
    ensures Contains(text, key) <==> exists i :: OccursAt(text, key, i)
    decreases |text|
  {
    if key <= text {
      assert text[0..|key|] == key;
      assert OccursAt(text, key, 0);
    } else if |text| > 0 {
      ContainsIff(text[1..], key);
      assert OccursAt(text, key, 0) ==> key <= text;
      forall i | OccursAt(text, key, i) ensures OccursAt(text[1..], key, i - 1) {
        assert 1 <= i;
        var shifted, here := text[1..][i - 1..i - 1 + |key|], text[i..i + |key|];
        assert forall k | 0 <= k < |key| :: shifted[k] == here[k];
        assert shifted == here;
      }
      forall i | OccursAt(text[1..], key, i) ensures OccursAt(text, key, i + 1) {
        assert text[i + 1..i + 1 + |key|] == text[1..][i..i + |key|];
      }
    }
  }

  /** A key longer than the text cannot occur in it. */
  lemma {:induction false} ShorterAbsent(text: string, key: string)
    requires |text| < |key|
    ensures !Contains(text, key)
    decreases |text|
  {
    if |text| > 0 {
      ShorterAbsent(text[1..], key);
    }
  }

  const BasicKeywords: seq<string> := ["troca", "óleo", "freio", "suspensão"]
  const AdvancedKeywords: seq<string> := ["motor", "transmissão", "elétrica"]

  /** Some keyword of the list occurs in the text. */
  predicate MentionsAny(text: string, keywords: seq<string>)
  {
    exists k :: k in keywords && Contains(text, k)
  }

  /**
   * The category of a demanded service: the first rule whose keywords occur
   * in the lower-cased text decides, and "Funilaria" is the fallback.
   */
  function Classify(service: string): (c: Category)
    ensures c == MecanicaBasica <==> MentionsAny(Lower(service), BasicKeywords)
    ensures c == MecanicaAvancada <==>
      !MentionsAny(Lower(service), BasicKeywords) && MentionsAny(Lower(service), AdvancedKeywords)
    ensures c == Funilaria <==>
      !MentionsAny(Lower(service), BasicKeywords) && !MentionsAny(Lower(service), AdvancedKeywords)
  {
    var s := Lower(service);
    if Contains(s, "troca") || Contains(s, "óleo") || Contains(s, "freio") || Contains(s, "suspensão") then
      MecanicaBasica
    else if Contains(s, "motor") || Contains(s, "transmissão") || Contains(s, "elétrica") then
      MecanicaAvancada
    else
      Funilaria
  }

  /** Classification ignores case: a text and its lower-cased form agree. */
  lemma ClassifyIgnoresCase(service: string)
    ensures Classify(Lower(service)) == Classify(service)
  {
    LowerIdempotent(service);
  }

  /**
   * First rule wins: a basic keyword decides even when an advanced keyword
   * occurs too.
   */
  lemma BasicKeywordWins(service: string, basic: string, advanced: string)
    requires basic in BasicKeywords && advanced in AdvancedKeywords
    requires Contains(Lower(service), basic) && Contains(Lower(service), advanced)
    ensures Classify(service) == MecanicaBasica
  {
  }

  /** The three categories carry three different labels. */
  lemma LabelInjective(c: Category, d: Category)
    ensures Label(c) == Label(d) <==> c == d
  {
    if c != d {
      assert Label(c)[0] != Label(d)[0] || Label(c)[9] != Label(d)[9] || |Label(c)| != |Label(d)|;
    }
  }

  /** A sample text: the capital T and the capital Ó fold before the tests. */
  lemma ClassifyOilChange()
    ensures Classify("Troca de Óleo") == MecanicaBasica
  {
    var t := "Troca de Óleo";
    assert forall i | 0 <= i < |t| :: Lower(t)[i] == "troca de óleo"[i];
    assert Lower(t) == "troca de óleo";
    assert Contains("troca de óleo", "troca");
  }

  /** A sample text in capitals that names only an advanced keyword. */
  lemma ClassifyEngine()
    ensures Classify("MOTOR") == MecanicaAvancada
  {
    assert Lower("MOTOR") == "motor";
    assert Contains("motor", "motor");
    assert "motor"[1..] == "otor" && "otor"[1..] == "tor";
    ShorterAbsent("motor", "suspensão");
    ShorterAbsent("otor", "troca");
    ShorterAbsent("otor", "freio");
    ShorterAbsent("tor", "óleo");
    assert !Contains("motor", "troca") by { assert "troca"[0] != "motor"[0]; }
    assert !Contains("motor", "freio") by { assert "freio"[0] != "motor"[0]; }
    assert !Contains("otor", "óleo") by { assert "óleo"[0] != "otor"[0]; }
    assert !Contains("motor", "óleo") by { assert "óleo"[0] != "motor"[0]; }
    assert !MentionsAny("motor", BasicKeywords);
  }
}

/** The repair of model output into a JSON array, in its two variants: the
    TypeScript one of src/app/api/generate-products/route.ts (`cleanText`) and
    the Python one of generate_content.py (`clean_json_string`). Both trim,
    strip a fence present at both ends, force a leading `[`, drop a trailing
    comma and append `]`; they differ in the whitespace they trim and in how
    many trailing commas they drop. */
module JsonRepair {
  import opened Text

  const JsonFence := "```json"
  const Fence := "```"

  /** `s.slice(front, -back)` in JavaScript and `s[front:-back]` in Python:
      both clamp the bounds to the string and give "" when the end falls at
      or before the start. */
  function Slice(s: string, front: nat, back: nat): (r: string)
    requires back > 0
    ensures |r| <= |s|
    ensures |s| <= front + back ==> r == ""
    ensures front + back < |s| ==> r == s[front..|s| - back]
  {
    var b := if front <= |s| then front else |s|;
    var e := if back <= |s| then |s| - back else 0;
    if e <= b then "" else s[b..e]
  }

  /** The fence removal both variants apply to the trimmed text; `p` is the
      language's whitespace, used to trim what is left inside the fence. */
  function Unfence(t: string, p: char -> bool): string
  {
    if StartsWith(t, JsonFence) && EndsWith(t, Fence) then Strip(Slice(t, 7, 3), p)
    else if StartsWith(t, Fence) && EndsWith(t, Fence) then Strip(Slice(t, 3, 3), p)
    else t
  }

  /** `if (!t.startsWith("[")) t = "[" + t`. */
  function OpenBracket(t: string): (r: string)
    ensures |r| > 0 && r[0] == '['
    ensures StartsWith(t, "[") ==> r == t
  {
    if StartsWith(t, "[") then t else "[" + t
  }

  /** `s.replace(/,\s*$/, "")`: a comma followed by nothing but whitespace is
      removed together with that whitespace. */
  function DropTrailingComma(s: string): (r: string)
    ensures StartsWith(s, r)
    ensures r == s || (|r| < |s| && s[|r|] == ',' && forall i :: |r| < i < |s| ==> IsJsSpace(s[i]))
    ensures r == s <==> !(|s| > TrailingCount(s, IsJsSpace) && s[|s| - TrailingCount(s, IsJsSpace) - 1] == ',')
  {
    var k := |s| - TrailingCount(s, IsJsSpace);
    if k > 0 && s[k - 1] == ',' then s[..k - 1] else s
  }

  /** `cleanText` (route.ts), from the generated text to the text handed to
      `JSON.parse`. */
  function CleanText(generated: string): string
  {
    var t := OpenBracket(Unfence(JsTrim(generated), IsJsSpace));
    if EndsWith(t, "]") then t else DropTrailingComma(t) + "]"
  }

  predicate IsComma(c: char)
  {
    c == ','
  }

  /** `clean_json_string` (generate_content.py): `rstrip(",")` drops every
      trailing comma, then `rstrip()` the whitespace before them. */
  function CleanJsonString(text: string): string
  {
    var t := OpenBracket(Unfence(PyStrip(text), IsPySpace));
    if EndsWith(t, "]") then t else StripEnd(StripEnd(t, IsComma), IsPySpace) + "]"
  }

  predicate Bracketed(s: string)
  {
    StartsWith(s, "[") && EndsWith(s, "]")
  }

  /** Stripping characters from the end keeps a first character that is not
      among them. */
  lemma StripEndKeepsHead(s: string, p: char -> bool)
    requires |s| > 0 && !p(s[0])
    ensures |StripEnd(s, p)| > 0 && StripEnd(s, p)[0] == s[0]
  {
  }

  /** Appending `]` to text that starts with `[` gives a bracketed text. */
  lemma CloseBracket(s: string)
    requires |s| > 0 && s[0] == '['
    ensures Bracketed(s + "]")
  {
    assert (s + "]")[..1] == "[";
    assert (s + "]")[|s|..] == "]";
  }

  /** A fence is removed only when the text both starts and ends with one,
      and the ```json form is tried first. */
  lemma UnfenceOnlyWhenFenced(t: string, p: char -> bool)
    ensures Unfence(t, p) != t ==> StartsWith(t, Fence) && EndsWith(t, Fence)
    ensures StartsWith(t, JsonFence) && EndsWith(t, Fence) ==> Unfence(t, p) == Strip(Slice(t, 7, 3), p)
    ensures !StartsWith(t, JsonFence) && StartsWith(t, Fence) && EndsWith(t, Fence) ==>
      Unfence(t, p) == Strip(Slice(t, 3, 3), p)
  {
    if StartsWith(t, JsonFence) {
      assert t[..3] == t[..7][..3];
    }
  }

  /** Text that does not start with a backtick is never unfenced. */
  lemma UnfencedWithoutBacktick(t: string, p: char -> bool)
    requires |t| > 0 && t[0] != '`'
    ensures Unfence(t, p) == t
  {
    assert !StartsWith(t, Fence) by { assert Fence[0] == '`'; }
    assert !StartsWith(t, JsonFence) by { assert JsonFence[0] == '`'; }
  }

  /** When the two fences overlap (at most five characters for ```, at most
      nine for ```json) nothing is left between them. */
  lemma OverlappingFence(t: string, p: char -> bool)
    requires StartsWith(t, Fence) && EndsWith(t, Fence)
    requires |t| < 6 || (StartsWith(t, JsonFence) && |t| < 10)
    ensures Unfence(t, p) == ""
  {
    StripEmpty("", p);
  }

  /** The TypeScript repair always yields a bracketed text. */
  lemma CleanTextBracketed(generated: string)
    ensures Bracketed(CleanText(generated))
  {
    var t := OpenBracket(Unfence(JsTrim(generated), IsJsSpace));
    if !EndsWith(t, "]") {
      StripEndKeepsHead(t, IsJsSpace);
      CloseBracket(DropTrailingComma(t));
    } else {
      assert t[..1] == "[";
    }
  }

  /** Trimmed text that is already a bracketed, unfenced array is handed on
      unchanged. */
  lemma CleanTextKeepsArray(generated: string)
    requires Bracketed(JsTrim(generated))
    ensures CleanText(generated) == JsTrim(generated)
  {
    UnfencedWithoutBacktick(JsTrim(generated), IsJsSpace);
  }

  /** Trimmed text fenced at both ends with nothing between the fences
      becomes the empty array. */
  lemma CleanTextOverlappingFence(generated: string)
    requires StartsWith(JsTrim(generated), Fence) && EndsWith(JsTrim(generated), Fence)
    requires |JsTrim(generated)| < 6 || (StartsWith(JsTrim(generated), JsonFence) && |JsTrim(generated)| < 10)
    ensures CleanText(generated) == "[]"
  {
    OverlappingFence(JsTrim(generated), IsJsSpace);
    assert OpenBracket("") == "[";
  }

  /** The TypeScript repair is idempotent. */
  lemma CleanTextIdempotent(generated: string)
    ensures CleanText(CleanText(generated)) == CleanText(generated)
  {
    CleanTextBracketed(generated);
    CleanTextFixesArray(CleanText(generated));
  }

  /** A bracketed text with nothing to trim is a fixed point of the
      TypeScript repair. */
  lemma CleanTextFixesArray(r: string)
    requires Bracketed(r)
    ensures CleanText(r) == r
  {
    assert r[0] == r[..1][0];
    assert r[|r| - 1] == r[|r| - 1..][0];
    StripUnchanged(r, IsJsSpace);
    CleanTextKeepsArray(r);
  }

  /** The Python repair always yields a bracketed text. */
  lemma CleanJsonStringBracketed(text: string)
    ensures Bracketed(CleanJsonString(text))
  {
    var t := OpenBracket(Unfence(PyStrip(text), IsPySpace));
    if !EndsWith(t, "]") {
      StripEndKeepsHead(t, IsComma);
      StripEndKeepsHead(StripEnd(t, IsComma), IsPySpace);
      CloseBracket(StripEnd(StripEnd(t, IsComma), IsPySpace));
    } else {
      assert t[..1] == "[";
    }
  }

  /** Stripped text that is already a bracketed, unfenced array is returned
      as it is. */
  lemma CleanJsonStringKeepsArray(text: string)
    requires Bracketed(PyStrip(text))
    ensures CleanJsonString(text) == PyStrip(text)
  {
    UnfencedWithoutBacktick(PyStrip(text), IsPySpace);
  }

  /** When `]` is missing, no whitespace is left before the `]` the Python
      repair appends (a comma can be: "a, ," becomes "[a,]"). */
  lemma CleanJsonStringClosing(text: string)
    requires !EndsWith(OpenBracket(Unfence(PyStrip(text), IsPySpace)), "]")
    ensures var r := CleanJsonString(text);
      |r| >= 2 && !IsPySpace(r[|r| - 2])
  {
    var t := OpenBracket(Unfence(PyStrip(text), IsPySpace));
    StripEndKeepsHead(t, IsComma);
    StripEndKeepsHead(StripEnd(t, IsComma), IsPySpace);
  }

  /** The Python repair is idempotent. */
  lemma CleanJsonStringIdempotent(text: string)
    ensures CleanJsonString(CleanJsonString(text)) == CleanJsonString(text)
  {
    CleanJsonStringBracketed(text);
    CleanJsonStringFixesArray(CleanJsonString(text));
  }

  /** A bracketed text with nothing to strip is a fixed point of the Python
      repair. */
  lemma CleanJsonStringFixesArray(r: string)
    requires Bracketed(r)
    ensures CleanJsonString(r) == r
  {
    assert r[0] == r[..1][0];
    assert r[|r| - 1] == r[|r| - 1..][0];
    StripUnchanged(r, IsPySpace);
    CleanJsonStringKeepsArray(r);
  }

  /** Where the two variants part: "a ," keeps its space in TypeScript,
      which drops one comma and the whitespace after it ... */
  lemma TrailingCommaTs()
    ensures CleanText("a ,") == "[a ]"
  {
    var s := "a ,";
    assert LeadingCount(s, IsJsSpace) == 0;
    assert TrailingCount(s, IsJsSpace) == 0;
    assert s[0..] == s;
    assert JsTrim(s) == s;
    UnfencedWithoutBacktick(s, IsJsSpace);
    var t := "[a ,";
    assert OpenBracket(s) == t;
    assert TrailingCount(t, IsJsSpace) == 0;
    assert DropTrailingComma(t) == "[a ";
  }

  /** ... and loses it in Python, which strips the whitespace left before the
      commas as well. */
  lemma TrailingCommaPy()
    ensures CleanJsonString("a ,") == "[a]"
  {
    var s := "a ,";
    PyStripExample();
    UnfencedWithoutBacktick(s, IsPySpace);
    assert OpenBracket(s) == "[a ,";
    PyCloseExample();
  }

  lemma PyStripExample()
    ensures PyStrip("a ,") == "a ,"
  {
    var s := "a ,";
    assert LeadingCount(s, IsPySpace) == 0;
    assert TrailingCount(s, IsPySpace) == 0;
    assert s[0..] == s;
  }

  lemma PyCloseExample()
    ensures StripEnd(StripEnd("[a ,", IsComma), IsPySpace) == "[a"
  {
    var t := "[a ,";
    assert TrailingCount(t, IsComma) == 1 by {
      assert t[..3] == "[a ";
      assert TrailingCount("[a ", IsComma) == 0;
    }
    assert StripEnd(t, IsComma) == "[a ";
    assert TrailingCount("[a ", IsPySpace) == 1 by {
      assert "[a "[..2] == "[a";
      assert TrailingCount("[a", IsPySpace) == 0;
    }
  }
}

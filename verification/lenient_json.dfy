/** Lenient JSON extraction (background.js): the model is asked for bare JSON
    but may wrap it in prose or code fences, so the text from the first `{` to
    the last `}` inclusive is taken as the JSON candidate. */
module LenientJson {
  import opened Js
  import opened Text

  const NoJsonMessage := "Model did not return valid JSON"

  /** `text.slice(start, end + 1)` with `start = indexOf('{')` and
      `end = lastIndexOf('}')`; `slice` yields "" when its end is not past its start. */
  function ExtractJson(text: string): (r: Result<string>)
    ensures r.Err? <==> ('{' !in text || '}' !in text)
    ensures r.Err? ==> r.message == NoJsonMessage
    ensures r.Ok? && r.value != [] ==>
              var a := IndexOf(text, '{');
              && |r.value| >= 2 && r.value[0] == '{' && r.value[|r.value| - 1] == '}'
              && a + |r.value| <= |text| && text[a..a + |r.value|] == r.value
              && forall i :: a + |r.value| <= i < |text| ==> text[i] != '}'
    ensures r == Ok([]) <==> ('{' in text && '}' in text && LastIndexOf(text, '}') < IndexOf(text, '{'))
  {
    BraceSlice(text)
  }

  /** The computation of `ExtractJson` without its contract, so that proofs
      about shifted texts do not drag the contract's slices along. */
  function BraceSlice(text: string): Result<string> {
    var start := IndexOf(text, '{');
    var end := LastIndexOf(text, '}');
    if start == -1 || end == -1 then Err(NoJsonMessage)
    else Ok(Slice(text, start, end + 1))
  }

  /** Prose before the first `{` and after the last `}` never changes the slice. */
  lemma ExtractIgnoresProse(before: string, core: string, after: string)
    requires '{' !in before && '}' !in after
    requires '{' in core && '}' in core
    ensures ExtractJson(before + core + after) == ExtractJson(core)
  {
    ShiftedByProse(before, core, after);
  }

  /** `ExtractIgnoresProse` with presence and absence read off the scans. */
  lemma ShiftedByProse(before: string, core: string, after: string)
    requires IndexOf(before, '{') == -1 && LastIndexOf(after, '}') == -1
    requires IndexOf(core, '{') >= 0 && LastIndexOf(core, '}') >= 0
    ensures BraceSlice(before + core + after) == BraceSlice(core)
  {
    var text := before + core + after;
    ProseShiftsBraces(before, core, after);
    assert forall k :: 0 <= k < |core| ==> text[|before| + k] == core[k];
    ExtractShift(text, core, |before|);
  }

  /** Prose without braces of the wrong kind shifts both brace positions by its length. */
  lemma ProseShiftsBraces(before: string, core: string, after: string)
    requires IndexOf(before, '{') == -1 && LastIndexOf(after, '}') == -1
    requires IndexOf(core, '{') >= 0 && LastIndexOf(core, '}') >= 0
    ensures IndexOf(before + core + after, '{') == |before| + IndexOf(core, '{')
    ensures LastIndexOf(before + core + after, '}') == |before| + LastIndexOf(core, '}')
  {
    var text := before + core + after;
    assert text == before + (core + after);
    IndexOfInPrefix(core, after, '{');
    IndexOfSkipsPrefix(before, core + after, '{');
    assert text == (before + core) + after;
    LastIndexOfInSuffix(before, core, '}');
    LastIndexOfSkipsSuffix(before + core, after, '}');
  }

  /** A text holding `core` at offset `off`, whose first `{` and last `}` are
      those of `core` shifted by `off`, extracts as `core` does. */
  lemma ExtractShift(text: string, core: string, off: int)
    requires 0 <= off && off + |core| <= |text|
    requires IndexOf(core, '{') >= 0 && LastIndexOf(core, '}') >= 0
    requires IndexOf(text, '{') == off + IndexOf(core, '{')
    requires LastIndexOf(text, '}') == off + LastIndexOf(core, '}')
    requires forall k :: 0 <= k < |core| ==> text[off + k] == core[k]
    ensures BraceSlice(text) == BraceSlice(core)
  {
    var a := IndexOf(core, '{');
    var e := LastIndexOf(core, '}');
    var json := Slice(core, a, e + 1);
    SliceAtOffset(text, core, off, a, e);
    ExtractAt(text, off + a, off + e, json);
    ExtractAt(core, a, e, json);
  }

  /** The extraction of a text whose first `{` and last `}` are known. */
  lemma ExtractAt(text: string, start: int, end: int, json: string)
    requires 0 <= start && 0 <= end
    requires IndexOf(text, '{') == start && LastIndexOf(text, '}') == end
    requires Slice(text, start, end + 1) == json
    ensures BraceSlice(text) == Ok(json)
  {
  }

  /** Where `text` holds `core` at offset `off`, each slice of `core` is the shifted slice of `text`. */
  lemma SliceAtOffset(text: string, core: string, off: int, i: int, last: int)
    requires 0 <= off && off + |core| <= |text|
    requires forall k :: 0 <= k < |core| ==> text[off + k] == core[k]
    requires 0 <= i < |core| && 0 <= last < |core|
    ensures Slice(text, off + i, off + last + 1) == Slice(core, i, last + 1)
  {
    if i <= last {
      var x := text[off + i..off + last + 1];
      var y := core[i..last + 1];
      forall k | 0 <= k < |x|
        ensures x[k] == y[k]
      {
        assert x[k] == text[off + i + k];
      }
    }
  }

  /** Extraction applied to its own non-empty output returns that output. */
  lemma ExtractIdempotent(text: string)
    requires ExtractJson(text).Ok? && ExtractJson(text).value != []
    ensures ExtractJson(ExtractJson(text).value) == ExtractJson(text)
  {
    var j := ExtractJson(text).value;
    IndexOfUnique(j, '{', 0);
    LastIndexOfUnique(j, '}', |j| - 1);
    ExtractAt(j, 0, |j| - 1, j);
  }
}

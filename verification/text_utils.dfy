/** The pure helpers of the chart mixin utilities: middle truncation of labels,
    shrinking a label until it fits a width, and resizing a tweened list. */
module TextUtils {
  import opened Outcomes
  import opened Js

  const DefaultSeparator: string := "..."

  /** `separator || '...'`: a missing or empty separator falls back to the default. */
  function EffectiveSeparator(separator: Option<string>): (sep: string)
    ensures |sep| > 0
    ensures separator.Some? && separator.value != "" ==> sep == separator.value
    ensures separator.None? || separator.value == "" ==> sep == DefaultSeparator
  {
    if separator.Some? && separator.value != "" then separator.value else DefaultSeparator
  }

  /** `truncate({text, strLen, separator})`: keep the ends of the text and put the
      separator in the middle. */
  function Truncate(text: string, strLen: int, separator: Option<string>): (r: string)
    ensures |text| <= strLen ==> r == text
    ensures |text| > strLen && strLen < |EffectiveSeparator(separator)| ==> r == EffectiveSeparator(separator)
    ensures |text| > strLen >= |EffectiveSeparator(separator)| ==> |r| == strLen
  {
    if |text| <= strLen then text
    else
      var sep := EffectiveSeparator(separator);
      var charsToShow := strLen - |sep|;
      var frontChars := CeilHalf(charsToShow);
      var backChars := FloorHalf(charsToShow);
      Substr(text, 0, frontChars) + sep + SubstrFrom(text, |text| - backChars)
  }

  /** When the text is too long and there is room for the separator, the result is
      a prefix, the separator and a suffix whose lengths differ by at most one,
      the prefix being the longer. */
  lemma TruncateKeepsBothEnds(text: string, strLen: int, separator: Option<string>)
    requires |text| > strLen >= |EffectiveSeparator(separator)|
    ensures var sep := EffectiveSeparator(separator);
            var k := strLen - |sep|;
            var front := CeilHalf(k);
            var back := FloorHalf(k);
            && front + back == k
            && back <= front <= back + 1
            && Truncate(text, strLen, separator) == text[..front] + sep + text[|text| - back..]
  {
    HalvesAddUp(strLen - |EffectiveSeparator(separator)|);
  }

  /** One step of `truncateTextUntil`: with the default separator and a target five
      characters shorter, the text shrinks to `max(|text| - 5, 3)` characters. */
  lemma ShrinkStepLength(text: string)
    requires |text| > 3
    ensures |Truncate(text, |text| - 5, None)| == if |text| - 5 > 3 then |text| - 5 else 3
  {
  }

  /** The loop of `truncateTextUntil` as a recursive definition: shrink while the
      text is wider than the limit and longer than three characters. */
  function ShrinkToFit(text: string, width: string -> real, maxWidth: real): (r: string)
    ensures width(r) <= maxWidth || |r| <= 3
    ensures |r| <= |text|
    ensures width(text) <= maxWidth || |text| <= 3 ==> r == text
    decreases |text|
  {
    if width(text) > maxWidth && |text| > 3 then
      ShrinkStepLength(text);
      ShrinkToFit(Truncate(text, |text| - 5, None), width, maxWidth)
    else text
  }

  /** `truncateTextUntil({text, font, maxWidth})`, with the canvas measurement of the
      font taken as the uninterpreted `width` function. */
  method TruncateTextUntil(text: string, width: string -> real, maxWidth: JsValue) returns (r: string)
    ensures !IsNumber(maxWidth) || (maxWidth.Num? && maxWidth.n <= 0.0) ==> r == ""
    ensures maxWidth.NaN? ==> r == text
    ensures maxWidth.Num? && maxWidth.n > 0.0 ==> r == ShrinkToFit(text, width, maxWidth.n)
    ensures maxWidth.Num? && maxWidth.n > 0.0 ==> width(r) <= maxWidth.n || |r| <= 3
  {
    if !IsNumber(maxWidth) || (maxWidth.Num? && maxWidth.n <= 0.0) {
      return "";
    }
    r := text;
    // every comparison with NaN is false, so a NaN limit never starts the loop
    while maxWidth.Num? && width(r) > maxWidth.n && |r| > 3
      invariant maxWidth.Num? ==> ShrinkToFit(r, width, maxWidth.n) == ShrinkToFit(text, width, maxWidth.n)
      invariant maxWidth.NaN? ==> r == text
      decreases |r|
    {
      ShrinkStepLength(r);
      r := Truncate(r, |r| - 5, None);
    }
  }

  /** The list handed to the mutation by `tweenGroup`: the target itself when the
      model is empty, otherwise a list of the target's length that keeps the
      model's items where they exist and takes the target's items beyond them. */
  function TweenGroup<T>(model: seq<T>, target: seq<T>): (r: seq<T>)
    ensures |model| == 0 ==> r == target
    ensures |r| == |target|
    ensures forall i :: 0 <= i < |r| ==> r[i] == if i < |model| then model[i] else target[i]
  {
    if |model| == 0 then target
    else if |model| >= |target| then model[..|target|]
    else model + target[|model|..]
  }
}

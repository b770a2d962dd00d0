/**
 * The `<lastmod>` text of the two XML sitemaps: an ISO timestamp from
 * `toISOString` with its `.mmmZ` ending, matched by `/\.\d{3}Z$/`,
 * replaced by `+00:00` (the W3C datetime form with an explicit offset).
 */
module Lastmod {
  import opened Text

  predicate IsDigit(c: char)
  {
    '0' <= c <= '9'
  }

  /** The string ends with a '.', three digits and a 'Z'. */
  predicate EndsWithMillisZ(s: string)
  {
    |s| >= 5 && s[|s| - 5] == '.' && IsDigit(s[|s| - 4]) && IsDigit(s[|s| - 3]) && IsDigit(s[|s| - 2])
      && s[|s| - 1] == 'Z'
  }

  const Offset: string := "+00:00"

  /** `iso.replace(/\.\d{3}Z$/, "+00:00")`. */
  function FormatLastmod(iso: string): (r: string)
    ensures EndsWithMillisZ(iso) ==> |r| == |iso| + 1 && r[..|iso| - 5] == iso[..|iso| - 5] && EndsWith(r, Offset)
    ensures !EndsWithMillisZ(iso) ==> r == iso
  {
    if EndsWithMillisZ(iso) then
      EndsWithConcat(iso[..|iso| - 5], Offset);
      iso[..|iso| - 5] + Offset
    else iso
  }

  /** A formatted timestamp is left alone by a second formatting. */
  lemma FormatLastmodIdempotent(iso: string)
    ensures FormatLastmod(FormatLastmod(iso)) == FormatLastmod(iso)
  {
    var r := FormatLastmod(iso);
    if EndsWithMillisZ(iso) {
      assert r[|r| - 1] == Offset[5];
    }
  }

  /** `toISOString` output (`YYYY-MM-DDTHH:mm:ss.sssZ`) becomes `YYYY-MM-DDTHH:mm:ss+00:00`. */
  lemma FormatLastmodOfIso(iso: string)
    requires |iso| == 24 && EndsWithMillisZ(iso)
    ensures var r := FormatLastmod(iso); |r| == 25 && r == iso[..19] + Offset
  {
  }
}

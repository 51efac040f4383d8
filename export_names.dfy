/**
 * File names for exported images (src/lib/utils/export.ts): an artifact's
 * name reduced to a short, safe slug, followed by the scheme and the date.
 *
 * The ISO date text (`toISOString()`) is a parameter; lower-casing covers the
 * ASCII letters only.
 */
module ExportNames {
  import opened Wrappers
  import opened Strings

  predicate SlugChar(c: char)
  {
    ('a' <= c <= 'z') || ('0' <= c <= '9') || c == '-'
  }

  /** `replace(/[^a-z0-9]/g, '-')` on one character. */
  function Dash(c: char): (d: char)
    ensures SlugChar(d)
    ensures SlugChar(c) ==> d == c
    ensures !(('a' <= c <= 'z') || ('0' <= c <= '9')) ==> d == '-'
  {
    if ('a' <= c <= 'z') || ('0' <= c <= '9') then c else '-'
  }

  function DashAll(s: string): (r: string)
    ensures |r| == |s|
    ensures forall i :: 0 <= i < |s| ==> r[i] == Dash(s[i])
  {
    seq(|s|, i requires 0 <= i < |s| => Dash(s[i]))
  }

  predicate NoDoubleDash(s: string)
  {
    forall i :: 0 <= i < |s| - 1 ==> !(s[i] == '-' && s[i + 1] == '-')
  }

  predicate IsSlug(s: string)
  {
    (forall i :: 0 <= i < |s| ==> SlugChar(s[i])) && NoDoubleDash(s)
  }

  /**
   * `replace(/-+/g, '-')`: every run of dashes becomes one dash. A dash
   * followed by another dash is dropped; everything else is kept.
   */
  function Collapse(s: string): (r: string)
    ensures |r| <= |s|
    ensures s != [] ==> r != [] && r[0] == s[0]
  {
    if |s| <= 1 then s
    else if s[0] == '-' && s[1] == '-' then Collapse(s[1..])
    else [s[0]] + Collapse(s[1..])
  }

  /** Collapsing keeps the characters it is given (no new kind appears) and leaves no double dash. */
  lemma {:induction false} CollapseIsSlug(s: string)
    requires forall i :: 0 <= i < |s| ==> SlugChar(s[i])
    ensures IsSlug(Collapse(s))
  {
    if |s| > 1 {
      CollapseIsSlug(s[1..]);
      var rest := Collapse(s[1..]);
      if !(s[0] == '-' && s[1] == '-') {
        var r := [s[0]] + rest;
        assert rest[0] == s[1];
        forall i | 0 <= i < |r| - 1 ensures !(r[i] == '-' && r[i + 1] == '-') {
          if i > 0 {
            assert r[i] == rest[i - 1] && r[i + 1] == rest[i];
          }
        }
      }
    }
  }

  /** A string without double dashes is not changed by collapsing. */
  lemma {:induction false} CollapseFixes(s: string)
    requires NoDoubleDash(s)
    ensures Collapse(s) == s
  {
    if |s| > 1 {
      assert NoDoubleDash(s[1..]) by {
        forall i | 0 <= i < |s[1..]| - 1 ensures !(s[1..][i] == '-' && s[1..][i + 1] == '-') {
          assert s[1..][i] == s[i + 1] && s[1..][i + 1] == s[i + 2];
        }
      }
      CollapseFixes(s[1..]);
      assert s == [s[0]] + s[1..];
    }
  }

  /** A prefix of a slug is a slug. */
  lemma TakeSlug(s: string, n: nat)
    requires IsSlug(s)
    ensures IsSlug(Take(s, n))
  {
  }

  /**
   * The safe name: `(name || 'artifact')`, lower-cased, every character
   * outside `[a-z0-9]` turned into a dash, runs of dashes collapsed, and cut
   * to its first 30 characters.
   */
  function SafeName(name: Option<string>): string
  {
    Take(Collapse(DashAll(ToLower(OrDefault(name, "artifact")))), 30)
  }

  /** The safe name is a non-empty slug of at most 30 characters; a missing or empty name gives 'artifact'. */
  lemma SafeNameShape(name: Option<string>)
    ensures IsSlug(SafeName(name))
    ensures 1 <= |SafeName(name)| <= 30
    ensures !(name.Some? && name.value != "") ==> SafeName(name) == "artifact"
  {
    var d := DashAll(ToLower(OrDefault(name, "artifact")));
    CollapseIsSlug(d);
    TakeSlug(Collapse(d), 30);
    if !(name.Some? && name.value != "") {
      assert ToLower("artifact") == "artifact";
      assert DashAll("artifact") == "artifact";
      CollapseFixes("artifact");
    }
  }

  /** A name that is already a slug of 1 to 30 characters is its own safe name. */
  lemma SafeNameFixes(s: string)
    requires IsSlug(s) && 1 <= |s| <= 30
    ensures SafeName(Some(s)) == s
  {
    assert ToLower(s) == s;
    assert DashAll(s) == s;
    CollapseFixes(s);
  }

  /** Sanitising twice is sanitising once. */
  lemma SafeNameIdempotent(name: Option<string>)
    ensures SafeName(Some(SafeName(name))) == SafeName(name)
  {
    SafeNameShape(name);
    SafeNameFixes(SafeName(name));
  }

  /** `generateVariantFilename(name, colorScheme, date)`, given `date.toISOString()`. */
  function VariantFilename(name: Option<string>, colorScheme: string, isoDate: string): (f: string)
    ensures StartsWith(f, SafeName(name) + "-" + colorScheme + "-")
    ensures EndsWith(f, ".jpg")
    ensures |f| == |SafeName(name)| + |colorScheme| + 2 + |Take(isoDate, 10)| + 4
    ensures f[|SafeName(name)| + |colorScheme| + 2..|f| - 4] == Take(isoDate, 10)
  {
    var f := SafeName(name) + "-" + colorScheme + "-" + Take(isoDate, 10) + ".jpg";
    StartsWithConcat(SafeName(name) + "-" + colorScheme + "-", Take(isoDate, 10) + ".jpg");
    assert f == (SafeName(name) + "-" + colorScheme + "-") + (Take(isoDate, 10) + ".jpg");
    EndsWithConcat(SafeName(name) + "-" + colorScheme + "-" + Take(isoDate, 10), ".jpg");
    f
  }

  /** The file name `downloadOriginalImage` uses. */
  function OriginalFilename(name: Option<string>, isoDate: string): string
  {
    SafeName(name) + "-original-" + Take(isoDate, 10) + ".jpg"
  }

  /**
   * The original's file name is the variant file name with 'original' as its
   * scheme: both downloads sanitise the name the same way. For a full ISO
   * date, the date part is its first ten characters (the calendar date).
   */
  lemma OriginalIsVariantNamed(name: Option<string>, isoDate: string)
    ensures OriginalFilename(name, isoDate) == VariantFilename(name, "original", isoDate)
    ensures |isoDate| >= 10 ==>
      |VariantFilename(name, "original", isoDate)| == |SafeName(name)| + 24
  {
    OriginalLayout(SafeName(name), Take(isoDate, 10));
  }

  lemma OriginalLayout(n: string, d: string)
    ensures n + "-original-" + d + ".jpg" == n + "-" + "original" + "-" + d + ".jpg"
  {
    assert "-" + "original" + "-" == "-original-";
    assert n + "-" + "original" + "-" + d + ".jpg" == n + ("-" + "original" + "-") + d + ".jpg";
  }
}

/** Account ids derived from the issuer and subject of a just-in-time token. */
module JitAccount {
  import opened Common
  import opened Text
  import opened OwnerScope

  const ACCOUNT_PREFIX := "acc_jit_"
  const ISSUER_MAX := 20
  const SUBJECT_MAX := 20
  const HASH_LEN := 12

  predicate Allowed(c: char) { 'a' <= c <= 'z' || '0' <= c <= '9' || c == '_' || c == '-' }

  predicate Dashes(c: char) { c == '-' || c == '_' }

  predicate Hex(c: char) { '0' <= c <= '9' || 'a' <= c <= 'f' }

  predicate HexDigest(digest: string) { HASH_LEN <= |digest| && forall i | 0 <= i < |digest| :: Hex(digest[i]) }

  predicate AllAllowed(s: string) { forall i | 0 <= i < |s| :: Allowed(s[i]) }

  /** Each maximal run of other characters becomes one dash; run tells that s continues such a run. */
  function Squeezed(s: string, run: bool): string {
    if s == "" then ""
    else if Allowed(s[0]) then [s[0]] + Squeezed(s[1..], false)
    else (if run then "" else "-") + Squeezed(s[1..], true)
  }

  /** lower stands for strings.ToLower. */
  function Normalized(value: string, max: int, lower: string -> string): string {
    var text := lower(Trim(value));
    if max <= 0 then ""
    else
      var cleaned := TrimBy(Dashes, Squeezed(text, false));
      if |cleaned| > max then TrimBy(Dashes, cleaned[..max]) else cleaned
  }

  lemma SqueezedAllowed(s: string, run: bool)
    ensures AllAllowed(Squeezed(s, run)) && |Squeezed(s, run)| <= |s|
  {
  }

  /** Splitting off the last character, as the loop meets it. */
  lemma {:induction false} SqueezedSnoc(s: string, c: char, run: bool)
    ensures Squeezed(s + [c], run) ==
      Squeezed(s, run) + (if Allowed(c) then [c] else if InRun(s, run) then "" else "-")
    decreases |s|
  {
    if s == "" {
      assert s + [c] == [c] && [c][1..] == "";
    } else {
      assert (s + [c])[1..] == s[1..] + [c];
      SqueezedSnoc(s[1..], c, !Allowed(s[0]));
    }
  }

  /** Whether a run of other characters is open after s. */
  predicate InRun(s: string, run: bool) { if s == "" then run else !Allowed(s[|s| - 1]) }

  /** The loop of normalizeJITAccountIDPart with its lastDash flag. */
  method Normalize(value: string, max: int, lower: string -> string) returns (r: string)
    ensures r == Normalized(value, max, lower)
  {
    var text := lower(Trim(value));
    if text == "" || max <= 0 {
      return "";
    }
    var built, lastDash := "", false;
    for i := 0 to |text|
      invariant built == Squeezed(text[..i], false)
      invariant lastDash == InRun(text[..i], false)
    {
      assert text[..i + 1] == text[..i] + [text[i]];
      SqueezedSnoc(text[..i], text[i], false);
      if Allowed(text[i]) {
        built := built + [text[i]];
        lastDash := false;
      } else if !lastDash {
        built := built + "-";
        lastDash := true;
      }
    }
    assert text[..|text|] == text;
    var cleaned := TrimBy(Dashes, built);
    if cleaned == "" {
      return "";
    }
    if |cleaned| > max {
      cleaned := TrimBy(Dashes, cleaned[..max]);
    }
    return cleaned;
  }

  lemma SliceAllowed(t: string, s: string)
    requires Slice(t, s) && AllAllowed(s)
    ensures AllAllowed(t) && |t| <= |s|
  {
    var i, j :| 0 <= i <= j <= |s| && t == s[i..j];
    assert forall k | 0 <= k < |t| :: t[k] == s[i + k];
  }

  /** A normalised part is short, of letters, digits, dashes and underscores, and neither begins nor ends with
      a dash or an underscore. */
  lemma NormalizedShape(value: string, max: int, lower: string -> string)
    ensures var r := Normalized(value, max, lower);
      AllAllowed(r) && Bare(Dashes, r) && |r| <= if max < 0 then 0 else max
  {
    var squeezed := Squeezed(lower(Trim(value)), false);
    var cleaned := TrimBy(Dashes, squeezed);
    SqueezedAllowed(lower(Trim(value)), false);
    TrimByBare(Dashes, squeezed);
    SliceAllowed(cleaned, squeezed);
    if 0 < max < |cleaned| {
      TrimByBare(Dashes, cleaned[..max]);
      SliceAllowed(TrimBy(Dashes, cleaned[..max]), cleaned[..max]);
    }
  }

  lemma SqueezedSame(s: string, run: bool)
    requires AllAllowed(s)
    ensures Squeezed(s, run) == s
  {
  }

  lemma AllowedNotSpace(s: string)
    requires AllAllowed(s)
    ensures Trim(s) == s
  {
    TrimBareSame(Space, s);
  }

  /** Normalising twice changes nothing, for a lower-casing that leaves lower-case text alone. */
  lemma NormalizedTwice(value: string, max: int, lower: string -> string)
    requires forall s | AllAllowed(s) :: lower(s) == s
    ensures var r := Normalized(value, max, lower); Normalized(r, max, lower) == r
  {
    var r := Normalized(value, max, lower);
    NormalizedShape(value, max, lower);
    AllowedNotSpace(r);
    SqueezedSame(r, false);
    TrimBareSame(Dashes, r);
  }

  /** digest stands for the hexadecimal SHA-256 of issuer and subject. */
  function Derive(issuer: string, subject: string, lower: string -> string, digest: string): Option<string>
    requires HexDigest(digest)
  {
    var iss, sub := Trim(issuer), Trim(subject);
    if iss == "" || sub == "" then None
    else
      var i, u := Normalized(iss, ISSUER_MAX, lower), Normalized(sub, SUBJECT_MAX, lower);
      if i == "" || u == "" then None
      else Some(ACCOUNT_PREFIX + i + "_" + u + "_" + digest[..HASH_LEN])
  }

  /** A derived account id is made of allowed characters only and fits in 62 of them. */
  lemma DerivedShape(issuer: string, subject: string, lower: string -> string, digest: string)
    requires HexDigest(digest)
    ensures var r := Derive(issuer, subject, lower, digest);
      r.Some? ==> AllAllowed(r.value) && ACCOUNT_PREFIX <= r.value && |r.value| <= 62
  {
    NormalizedShape(Trim(issuer), ISSUER_MAX, lower);
    NormalizedShape(Trim(subject), SUBJECT_MAX, lower);
  }

  /** Owners in the allowed alphabet meet the condition under which scoping is exact. */
  lemma AllowedOwnersAreSafe(owner: string, other: string, id: string)
    requires AllAllowed(owner) && owner != "" && AllAllowed(other) && other != "" && Trim(id) != ""
    ensures Parse(Scope(owner, id)) == Some((owner, Trim(id)))
    ensures Unscope(owner, Scope(owner, id)) == Some(Trim(id))
    ensures Persistable(Scope(owner, id))
    ensures Unscope(other, Scope(owner, id)).Some? <==> other == owner
  {
    AllowedNotSpace(owner);
    AllowedNotSpace(other);
    ParseUndoesScopeIff(owner, id);
    UnscopeUndoesScope(owner, id);
    RestoreAcceptsScopedIff(owner, id);
    ForeignUnscopeIff(other, owner, id);
    assert ':' !in owner && ':' !in other;
    assert Index(owner, ':') == |owner|;
    assert Before(owner) == owner;
  }

  /** For the account derived from any issuer and subject, and every session id: parsing and unscoping undo scoping, a
      restart accepts the scoped id, and an account derived from any other token can unscope it only if it is
      the same account. */
  lemma DerivedOwnersAreSafe(issuer: string, subject: string, digest: string,
                             issuer2: string, subject2: string, digest2: string, lower: string -> string, id: string)
    requires HexDigest(digest) && HexDigest(digest2) && Trim(id) != ""
    requires Derive(issuer, subject, lower, digest).Some? && Derive(issuer2, subject2, lower, digest2).Some?
    ensures
      var owner := Derive(issuer, subject, lower, digest).value;
      var other := Derive(issuer2, subject2, lower, digest2).value;
      && Parse(Scope(owner, id)) == Some((owner, Trim(id)))
      && Unscope(owner, Scope(owner, id)) == Some(Trim(id))
      && Persistable(Scope(owner, id))
      && (Unscope(other, Scope(owner, id)).Some? <==> other == owner)
  {
    DerivedShape(issuer, subject, lower, digest);
    DerivedShape(issuer2, subject2, lower, digest2);
    var owner := Derive(issuer, subject, lower, digest).value;
    var other := Derive(issuer2, subject2, lower, digest2).value;
    AllowedOwnersAreSafe(owner, other, id);
  }
}

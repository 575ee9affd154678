/**
 * The two private helpers CoreOutbox and CoreInbox (src/CoreCompat/) both
 * define, identically: fitting a string into a fixed-width column, and
 * recognising a unique-constraint violation by its message.
 */
module LegacySupport {
  import opened Common
  import opened PhpStrings
  import opened Primitives

  /** The longest prefix of the SHA-256 hex digest a shortened value keeps. */
  const DigestLength := 64

  /** The value normalizeFixedString works with: the trimmed value, or the fallback (untrimmed) when that is blank. */
  function Picked(value: string, fallback: string): string {
    if IsBlank(value) then fallback else Trim(value)
  }

  /**
   * normalizeFixedString($value, $maxLen, $fallback): the picked value when
   * it fits in maxLen characters, otherwise the first min(maxLen, 64)
   * characters of its SHA-256 hex digest. The callers pass 64 or 100.
   */
  function NormalizeFixedString(value: string, maxLen: nat, fallback: string, sha256Hex: string -> Sha256Hex): (r: string)
    ensures |r| <= maxLen
  {
    var v := Picked(value, fallback);
    if |v| <= maxLen then v else Prefix(sha256Hex(v), Min(maxLen, DigestLength))
  }

  /** A lower-case hex digit is never a trim character. */
  lemma HexIsTrimmed(h: string)
    requires h != [] && forall i | 0 <= i < |h| :: IsLowerHexDigit(h[i])
    ensures IsTrimmedNonBlank(h)
  {
    assert IsLowerHexDigit(h[0]) && IsLowerHexDigit(h[|h| - 1]);
  }

  /**
   * A value that fits is kept (trimmed, or replaced by the fallback when
   * blank); a longer one becomes exactly min(maxLen, 64) lower-case hex
   * digits of its digest.
   */
  lemma NormalizeFixedStringCases(value: string, maxLen: nat, fallback: string, sha256Hex: string -> Sha256Hex)
    ensures var r := NormalizeFixedString(value, maxLen, fallback, sha256Hex);
      var v := Picked(value, fallback);
      && (!IsBlank(value) && |Trim(value)| <= maxLen ==> r == Trim(value))
      && (IsBlank(value) && |fallback| <= maxLen ==> r == fallback)
      && (|v| > maxLen ==> |r| == Min(maxLen, DigestLength) && r == sha256Hex(v)[..|r|])
      && (|v| > maxLen ==> forall i | 0 <= i < |r| :: IsLowerHexDigit(r[i]))
  {
  }

  /**
   * With a trimmed non-blank fallback and a positive width, normalizing
   * twice is normalizing once: every result is trimmed, non-blank and fits.
   */
  lemma {:induction false} NormalizeFixedStringIdempotent(value: string, maxLen: nat, fallback: string, sha256Hex: string -> Sha256Hex)
    requires maxLen >= 1 && IsTrimmedNonBlank(fallback)
    ensures var r := NormalizeFixedString(value, maxLen, fallback, sha256Hex);
      IsTrimmedNonBlank(r) && NormalizeFixedString(r, maxLen, fallback, sha256Hex) == r
  {
    var v := Picked(value, fallback);
    var r := NormalizeFixedString(value, maxLen, fallback, sha256Hex);
    if |v| <= maxLen {
      if IsBlank(value) {
        assert r == fallback;
      } else {
        assert r == Trim(value);
        TrimIdempotent(value);
      }
    } else {
      var h := sha256Hex(v);
      assert r == h[..Min(maxLen, DigestLength)];
      assert forall i | 0 <= i < |r| :: IsLowerHexDigit(r[i]) by {
        forall i | 0 <= i < |r| ensures IsLowerHexDigit(r[i]) {
          assert r[i] == h[i];
        }
      }
      HexIsTrimmed(r);
    }
    TrimOfTrimmed(r);
    assert !IsBlank(r);
    assert Picked(r, fallback) == r;
  }

  const DuplicateWord := "duplicate"
  const UniqueWord := "unique"

  /** isDuplicateError($e): the lower-cased message mentions "duplicate" or "unique". */
  predicate IsDuplicateError(message: string) {
    Contains(Lower(message), DuplicateWord) || Contains(Lower(message), UniqueWord)
  }

  lemma {:induction false} LowerConcat(a: string, b: string)
    ensures Lower(a + b) == Lower(a) + Lower(b)
  {
    assert forall i | 0 <= i < |a + b| :: Lower(a + b)[i] == (Lower(a) + Lower(b))[i] by {
      forall i | 0 <= i < |a + b| ensures Lower(a + b)[i] == (Lower(a) + Lower(b))[i] {
        if i < |a| {
          assert (a + b)[i] == a[i];
        } else {
          assert (a + b)[i] == b[i - |a|];
        }
      }
    }
  }

  lemma LowerIdempotent(s: string)
    ensures Lower(Lower(s)) == Lower(s)
  {
    assert forall i | 0 <= i < |s| :: LowerChar(LowerChar(s[i])) == LowerChar(s[i]);
  }

  /** The test ignores case: a message and its lower-case form are judged alike. */
  lemma DuplicateErrorIgnoresCase(message: string)
    ensures IsDuplicateError(Lower(message)) == IsDuplicateError(message)
  {
    LowerIdempotent(message);
  }

  lemma {:induction false} ContainsInContext(before: string, s: string, after: string, word: string)
    requires Contains(s, word)
    ensures Contains(before + s + after, word)
  {
    var i :| 0 <= i <= |s| - |word| && OccursAt(s, word, i);
    var t := before + s + after;
    assert t[|before| + i..|before| + i + |word|] == s[i..i + |word|];
    assert OccursAt(t, word, |before| + i);
  }

  /** The words may appear anywhere: wrapping a duplicate error's message in more text keeps it one. */
  lemma DuplicateErrorInContext(before: string, message: string, after: string)
    requires IsDuplicateError(message)
    ensures IsDuplicateError(before + message + after)
  {
    LowerConcat(before + message, after);
    LowerConcat(before, message);
    if Contains(Lower(message), DuplicateWord) {
      ContainsInContext(Lower(before), Lower(message), Lower(after), DuplicateWord);
    } else {
      ContainsInContext(Lower(before), Lower(message), Lower(after), UniqueWord);
    }
  }
}

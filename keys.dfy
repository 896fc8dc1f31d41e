/** The two string rules of the thumbnail handler: which object keys it
    turns into thumbnails, and under which key it stores the result. */
module Keys {

  /** The prefix that marks an object key as a generated thumbnail. */
  const ThumbPrefix: string := "thumb-"

  /** Lower-cases one character. Only the ASCII letters A-Z change. */
  function LowerChar(c: char): (r: char)
    ensures 'A' <= c <= 'Z' ==> 'a' <= r <= 'z' && r as int - c as int == 32
    ensures !('A' <= c <= 'Z') ==> r == c
  {
    if 'A' <= c <= 'Z' then (c as int + 32) as char else c
  }

  /** The lower-cased copy of `s`, character by character. */
  function Lower(s: string): (r: string)
    ensures |r| == |s|
    ensures forall i :: 0 <= i < |s| ==> r[i] == LowerChar(s[i])
  {
    seq(|s|, i requires 0 <= i < |s| => LowerChar(s[i]))
  }

  predicate StartsWith(s: string, prefix: string)
  {
    |prefix| <= |s| && s[..|prefix|] == prefix
  }

  predicate EndsWith(s: string, suffix: string)
  {
    |suffix| <= |s| && s[|s| - |suffix|..] == suffix
  }

  /** The first check of the filter: the lower-cased key ends with one of
      the image suffixes. No dot is required before the suffix. */
  predicate HasImageSuffix(key: string)
  {
    var k := Lower(key);
    EndsWith(k, "jpg") || EndsWith(k, "jpeg") || EndsWith(k, "png")
  }

  /** The second check of the filter, case-sensitive. */
  predicate IsThumbnailKey(key: string)
  {
    StartsWith(key, ThumbPrefix)
  }

  /** A key that passes both checks is turned into a thumbnail. */
  predicate Eligible(key: string)
  {
    HasImageSuffix(key) && !IsThumbnailKey(key)
  }

  /** The destination key of the thumbnail made from `key`. */
  function ThumbKey(key: string): (t: string)
    ensures IsThumbnailKey(t)
    ensures EndsWith(t, key) && |t| == |ThumbPrefix| + |key|
  {
    ThumbPrefix + key
  }

  /** Distinct source keys get distinct destination keys. */
  lemma ThumbKeyInjective(a: string, b: string)
    requires ThumbKey(a) == ThumbKey(b)
    ensures a == b
  {
    assert a == ThumbKey(a)[|ThumbPrefix|..];
    assert b == ThumbKey(b)[|ThumbPrefix|..];
  }

  lemma LowerAppend(a: string, b: string)
    ensures Lower(a + b) == Lower(a) + Lower(b)
  {
    assert forall i :: 0 <= i < |a + b| ==> Lower(a + b)[i] == (Lower(a) + Lower(b))[i];
  }

  /** A suffix without a dash cannot reach across a dash that ends `p`. */
  lemma EndsWithAfterDash(p: string, s: string, suffix: string)
    requires |p| > 0 && p[|p| - 1] == '-'
    requires forall i :: 0 <= i < |suffix| ==> suffix[i] != '-'
    ensures EndsWith(p + s, suffix) <==> EndsWith(s, suffix)
  {
    var ps := p + s;
    if |suffix| <= |s| {
      assert ps[|ps| - |suffix|..] == s[|s| - |suffix|..];
    } else {
      // the suffix would have to cover the dash that ends `p`
      assert ps[|p| - 1] == '-';
    }
  }

  /** The destination key has an image suffix exactly when the source key
      has one: prefixing "thumb-" never changes the first check. */
  lemma {:induction false} ThumbKeyKeepsSuffix(key: string)
    ensures HasImageSuffix(ThumbKey(key)) <==> HasImageSuffix(key)
  {
    LowerAppend(ThumbPrefix, key);
    var p := Lower(ThumbPrefix);
    assert p[|p| - 1] == '-';
    EndsWithAfterDash(p, Lower(key), "jpg");
    EndsWithAfterDash(p, Lower(key), "jpeg");
    EndsWithAfterDash(p, Lower(key), "png");
  }

  /** A destination key always fails the second check, so a thumbnail fed
      back to the handler as a new object is never processed again. */
  lemma ThumbKeyNeverEligible(key: string)
    ensures !Eligible(ThumbKey(key))
  {
  }

  /** A destination key starts with "thumb-thumb-" exactly when its source
      key starts with "thumb-": so no eligible key yields such a key. */
  lemma ThumbKeyDoublePrefix(key: string)
    ensures StartsWith(ThumbKey(key), ThumbPrefix + ThumbPrefix) <==> IsThumbnailKey(key)
    ensures Eligible(key) ==> !StartsWith(ThumbKey(key), ThumbPrefix + ThumbPrefix)
  {
    var t := ThumbKey(key);
    var pp := ThumbPrefix + ThumbPrefix;
    if StartsWith(t, pp) {
      assert key[..|ThumbPrefix|] == t[|ThumbPrefix|..|pp|];
      assert t[|ThumbPrefix|..|pp|] == pp[|ThumbPrefix|..];
    }
    if IsThumbnailKey(key) {
      assert t[..|pp|] == ThumbPrefix + key[..|ThumbPrefix|];
    }
  }

  /** The filter on concrete keys: the suffix check needs no dot and
      ignores case. */
  lemma SuffixExamples()
    ensures HasImageSuffix("weirdjpg")
    ensures HasImageSuffix("photo.JPG")
    ensures HasImageSuffix("b.PnG")
    ensures !HasImageSuffix("doc.pdf")
  {
    assert Lower("weirdjpg")[5..] == "jpg";
    assert Lower("photo.JPG")[6..] == "jpg";
    assert Lower("b.PnG")[2..] == "png";
    assert Lower("doc.pdf") == "doc.pdf";
  }

  /** The prefix check is case-sensitive and made after the suffix check:
      "THUMB-a.png" is processed, "thumb-A.PNG" is skipped as a thumbnail,
      "thumb-doc.pdf" is skipped as a non-image. */
  lemma PrefixExamples()
    ensures Eligible("THUMB-a.png")
    ensures HasImageSuffix("thumb-A.PNG") && !Eligible("thumb-A.PNG")
    ensures !HasImageSuffix("thumb-doc.pdf")
  {
    assert Lower("THUMB-a.png")[8..] == "png";
    assert "THUMB-a.png"[0] != ThumbPrefix[0];
    assert Lower("thumb-A.PNG")[8..] == "png";
    assert "thumb-A.PNG"[..6] == ThumbPrefix;
    assert Lower("thumb-doc.pdf") == "thumb-doc.pdf";
  }
}

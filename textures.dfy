/**
 * Texture-based face filtering: faces whose texture is a tool texture
 * (clip, hint, trigger, ...) or a sky, light, tech or wood texture are not
 * drawn on the map.
 */
module Textures {
  import opened Levels

  /** Names ignored when they match exactly. */
  const IgnoredNames: seq<string> := ["clip", "hint", "trigger", "163"]

  /** Names ignored when they occur anywhere in the texture name. */
  const IgnoredNeedles: seq<string> := ["sky", "light", "tech", "wood"]

  predicate StartsWith(s: string, prefix: string)
  {
    |prefix| <= |s| && s[..|prefix|] == prefix
  }

  /** Substring search, trying each start position from left to right. */
  predicate Contains(s: string, needle: string)
    decreases |s|
  {
    StartsWith(s, needle) || (|s| > 0 && Contains(s[1..], needle))
  }

  /** Reference definition: `needle` occurs in `s` starting at position `i`. */
  ghost predicate OccursAt(s: string, needle: string, i: int)
  {
    0 <= i && i + |needle| <= |s| && s[i..i + |needle|] == needle
  }

  lemma {:induction false} ContainsIff(s: string, needle: string)
    ensures Contains(s, needle) <==> exists i :: OccursAt(s, needle, i)
    decreases |s|
  {
    if StartsWith(s, needle) {
      assert OccursAt(s, needle, 0);
    } else if |s| > 0 {
      ContainsIff(s[1..], needle);
      if Contains(s[1..], needle) {
        var i :| OccursAt(s[1..], needle, i);
        assert s[1..][i..i + |needle|] == s[i + 1..i + 1 + |needle|];
        assert OccursAt(s, needle, i + 1);
      }
      if i :| OccursAt(s, needle, i) {
        assert i != 0;
        assert s[1..][i - 1..i - 1 + |needle|] == s[i..i + |needle|];
        assert OccursAt(s[1..], needle, i - 1);
      }
    } else {
      assert forall i :: !OccursAt(s, needle, i);
    }
  }

  /** Exact names first, then needles; the comparison is case-sensitive. */
  predicate IsIgnoredTexture(name: string)
  {
    if name in IgnoredNames then true
    else exists k :: 0 <= k < |IgnoredNeedles| && Contains(name, IgnoredNeedles[k])
  }

  /**
   * A texture is ignored exactly when its name is one of the four tool
   * names, or when "sky", "light", "tech" or "wood" occurs in it.
   */
  lemma IgnoredTextureIff(name: string)
    ensures IsIgnoredTexture(name) <==>
      || name == "clip" || name == "hint" || name == "trigger" || name == "163"
      || (exists i :: OccursAt(name, "sky", i))
      || (exists i :: OccursAt(name, "light", i))
      || (exists i :: OccursAt(name, "tech", i))
      || (exists i :: OccursAt(name, "wood", i))
  {
    ContainsIff(name, "sky");
    ContainsIff(name, "light");
    ContainsIff(name, "tech");
    ContainsIff(name, "wood");
    assert IgnoredNeedles[0] == "sky" && IgnoredNeedles[1] == "light";
    assert IgnoredNeedles[2] == "tech" && IgnoredNeedles[3] == "wood";
  }

  /** Exact names are ignored. */
  lemma ExactNameIgnored()
    ensures IsIgnoredTexture("clip") && IsIgnoredTexture("hint")
    ensures IsIgnoredTexture("trigger") && IsIgnoredTexture("163")
  {
    assert IgnoredNames[0] == "clip" && IgnoredNames[1] == "hint";
    assert IgnoredNames[2] == "trigger" && IgnoredNames[3] == "163";
  }

  /** A name containing a needle is ignored. */
  lemma NeedleNameIgnored()
    ensures IsIgnoredTexture("sky1")
    ensures IsIgnoredTexture("wood_floor")
  {
    assert IgnoredNeedles[0] == "sky";
    assert StartsWith("sky1", "sky");
    assert IgnoredNeedles[3] == "wood";
    assert StartsWith("wood_floor", "wood");
  }

  /** Ordinary names are kept, and so is "CLIP": matching is case-sensitive. */
  lemma OrdinaryNamesKept()
    ensures !IsIgnoredTexture("wall")
    ensures !IsIgnoredTexture("metal")
    ensures !IsIgnoredTexture("CLIP")
  {
    NoNeedleIn("wall");
    NoNeedleIn("metal");
    NoNeedleIn("CLIP");
  }

  /** A needle whose first two letters never stand side by side in `s` does not occur in it. */
  lemma AbsentLeadingPair(s: string, needle: string)
    requires |needle| >= 2
    requires forall i :: 0 <= i < |s| - 1 ==> !(s[i] == needle[0] && s[i + 1] == needle[1])
    ensures !Contains(s, needle)
  {
    ContainsIff(s, needle);
  }

  /** None of the needles occurs in `name`, checked pair by pair. */
  lemma NoNeedleIn(name: string)
    requires forall i :: 0 <= i < |name| - 1 ==>
      !(name[i] == 's' && name[i + 1] == 'k') && !(name[i] == 'l' && name[i + 1] == 'i') &&
      !(name[i] == 't' && name[i + 1] == 'e') && !(name[i] == 'w' && name[i + 1] == 'o')
    ensures forall k :: 0 <= k < |IgnoredNeedles| ==> !Contains(name, IgnoredNeedles[k])
  {
    AbsentLeadingPair(name, "sky");
    AbsentLeadingPair(name, "light");
    AbsentLeadingPair(name, "tech");
    AbsentLeadingPair(name, "wood");
  }

  /**
   * The faces that are drawn: every face whose texture is not ignored, in
   * the level's order.
   */
  function FilterFaces(faces: seq<Face>): (kept: seq<Face>)
    ensures |kept| <= |faces|
    ensures forall i :: 0 <= i < |kept| ==> kept[i] in faces && !IsIgnoredTexture(kept[i].textureName)
  {
    if faces == [] then []
    else
      var rest := FilterFaces(faces[1..]);
      if IsIgnoredTexture(faces[0].textureName) then rest else [faces[0]] + rest
  }

  /**
   * A face occurs in the filtered list as often as in the input when its
   * texture is kept, and not at all when it is ignored.
   */
  lemma {:induction false} FilterFacesCount(faces: seq<Face>, f: Face)
    ensures multiset(FilterFaces(faces))[f] ==
      if IsIgnoredTexture(f.textureName) then 0 else multiset(faces)[f]
  {
    if faces != [] {
      FilterFacesCount(faces[1..], f);
      assert faces == [faces[0]] + faces[1..];
      assert multiset(faces) == multiset{faces[0]} + multiset(faces[1..]);
      var rest := FilterFaces(faces[1..]);
      if !IsIgnoredTexture(faces[0].textureName) {
        assert FilterFaces(faces) == [faces[0]] + rest;
        assert multiset([faces[0]] + rest) == multiset{faces[0]} + multiset(rest);
      } else {
        assert FilterFaces(faces) == rest;
      }
    }
  }

  /** Filtering commutes with concatenation, so it keeps the input order. */
  lemma {:induction false} FilterFacesAppend(a: seq<Face>, b: seq<Face>)
    ensures FilterFaces(a + b) == FilterFaces(a) + FilterFaces(b)
  {
    if a == [] {
      assert a + b == b;
    } else {
      assert (a + b)[1..] == a[1..] + b;
      FilterFacesAppend(a[1..], b);
    }
  }

  /** A list with no ignored texture passes unchanged. */
  lemma {:induction false} FilterFacesKeepsAll(faces: seq<Face>)
    requires forall i :: 0 <= i < |faces| ==> !IsIgnoredTexture(faces[i].textureName)
    ensures FilterFaces(faces) == faces
  {
    if faces != [] {
      FilterFacesKeepsAll(faces[1..]);
    }
  }
}

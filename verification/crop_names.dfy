/** Crop names as farmers type them, in Hindi or English, mapped to one
    canonical English name. */
module CropNames {
  import opened Common
  import opened Text

  /** The Hindi names with a canonical English name. */
  const Variations: map<string, string> := map[
    "गेहूं" := "wheat",
    "चावल" := "rice",
    "धान" := "rice",
    "टमाटर" := "tomato",
    "प्याज" := "onion",
    "आलू" := "potato",
    "गन्ना" := "sugarcane",
    "कपास" := "cotton",
    "सोयाबीन" := "soybean",
    "मक्का" := "maize",
    "बाजरा" := "bajra"]

  /** Every name in the table starts with a Devanagari letter. */
  predicate StartsDevanagari(s: string) {
    |s| > 0 && 'ऀ' <= s[0] <= 'ॿ'
  }

  /** The canonical English names. */
  const Canonical: set<string> := {"wheat", "rice", "tomato", "onion", "potato", "sugarcane", "cotton",
                                   "soybean", "maize", "bajra"}

  lemma VariationsKeys()
    ensures forall k :: k in Variations ==> StartsDevanagari(k)
  {
  }

  lemma VariationsValues()
    ensures forall k :: k in Variations ==> Variations[k] in Canonical
  {
  }

  lemma CanonicalWords()
    ensures forall v :: v in Canonical ==> IsLowerAscii(v) && |v| > 0
  {
  }

  /** The table's keys are Hindi and its values lower-case English words, so
      no value is itself a key. */
  lemma VariationsShape()
    ensures forall k :: k in Variations ==> IsLowerAscii(Variations[k]) && |Variations[k]| > 0
    ensures forall k :: k in Variations ==> Variations[k] !in Variations
  {
    VariationsKeys();
    VariationsValues();
    CanonicalWords();
    forall k | k in Variations
      ensures Variations[k] !in Variations
    {
      var v := Variations[k];
      assert 'a' <= v[0] <= 'z';
      assert !StartsDevanagari(v);
    }
  }

  /** Both Hindi words for rice, the grain and the paddy, mean rice. */
  lemma RiceSynonyms()
    ensures Variations["धान"] == "rice" && Variations["चावल"] == "rice"
  {
  }

  /** `normalize_crop_name`: a missing or empty name is the empty name;
      otherwise the name is lower-cased and stripped, then replaced by its
      English name if the table has one. */
  function NormalizeCropName(name: Option<string>): (r: string)
    ensures name.None? || name == Some("") ==> r == ""
    ensures name.Some? && name.value != "" && Strip(Lower(name.value)) in Variations ==>
              r == Variations[Strip(Lower(name.value))]
    ensures name.Some? && name.value != "" && Strip(Lower(name.value)) !in Variations ==>
              r == Strip(Lower(name.value))
  {
    match name
    case None => ""
    case Some(s) =>
      if s == "" then ""
      else
        var normalized := Strip(Lower(s));
        if normalized in Variations then Variations[normalized] else normalized
  }

  /** Lower-casing twice is lower-casing once. */
  lemma LowerIdempotent(s: string)
    ensures Lower(Lower(s)) == Lower(s)
  {
  }

  /** Lower-casing commutes with taking a slice. */
  lemma LowerSlice(s: string, i: nat, j: nat)
    requires i <= j <= |s|
    ensures Lower(s[i..j]) == Lower(s)[i..j]
  {
  }

  /** A normalised name is already lower-cased and stripped. */
  lemma NormalizedIsFixed(s: string)
    ensures Lower(Strip(Lower(s))) == Strip(Lower(s))
    ensures Strip(Strip(Lower(s))) == Strip(Lower(s))
  {
    LowerIdempotent(s);
    LowerOfStripped(Lower(s));
    StripIdempotent(Lower(s));
  }

  /** Stripping lower-cased text leaves it lower-cased. */
  lemma LowerOfStripped(l: string)
    requires Lower(l) == l
    ensures Lower(Strip(l)) == Strip(l)
  {
    var i := StripIsSlice(l);
    LowerOfLowerSlice(l, i, i + |Strip(l)|);
  }

  /** A slice of lower-cased text is lower-cased. */
  lemma LowerOfLowerSlice(l: string, i: nat, j: nat)
    requires i <= j <= |l| && Lower(l) == l
    ensures Lower(l[i..j]) == l[i..j]
  {
    LowerSlice(l, i, j);
  }

  /** A table value normalises to itself. */
  lemma CanonicalIsFixed(v: string)
    requires IsLowerAscii(v) && |v| > 0
    ensures Lower(v) == v && Strip(v) == v
  {
    assert forall i :: 0 <= i < |v| ==> !IsSpace(v[i]);
    StripOfTrimmed(v);
  }

  /** Text with no whitespace at either end is its own strip. */
  lemma StripOfTrimmed(v: string)
    requires |v| > 0 && !IsSpace(v[0]) && !IsSpace(v[|v| - 1])
    ensures Strip(v) == v
  {
    var i := StripIsSlice(v);
  }

  /** Normalising twice gives what normalising once gives. */
  lemma NormalizeIdempotent(name: Option<string>)
    ensures NormalizeCropName(Some(NormalizeCropName(name))) == NormalizeCropName(name)
  {
    var r := NormalizeCropName(name);
    if r != "" {
      var s := name.value;
      var n := Strip(Lower(s));
      VariationsShape();
      if n in Variations {
        CanonicalIsFixed(r);
      } else {
        NormalizedIsFixed(s);
      }
    }
  }
}

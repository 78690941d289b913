/**
 * Terraform identifier derivation for rendered resources
 * (internal/renderer/templates.go): lower-case the name, then replace each
 * space, dash and dot with an underscore.
 */
module TfNames {
  import opened Strings

  /** The characters the renderer turns into underscores. */
  predicate IsSeparator(c: char) { c == ' ' || c == '-' || c == '.' }

  /** What one input character becomes in a Terraform name. */
  function TfChar(c: char): char
  {
    if IsSeparator(c) then '_' else LowerChar(c)
  }

  /** `toTFName`: lower-casing followed by three one-for-one replacements. */
  function ToTFName(s: string): string
  {
    ReplaceAll(ReplaceAll(ReplaceAll(ToLower(s), ' ', '_'), '-', '_'), '.', '_')
  }

  /**
   * The name has the input's length and is the input mapped character by
   * character: separators become underscores, everything else is lower-cased.
   */
  lemma ToTFNamePointwise(s: string)
    ensures |ToTFName(s)| == |s|
    ensures forall i :: 0 <= i < |s| ==> ToTFName(s)[i] == TfChar(s[i])
  {
  }

  /** No space, dash, dot or upper-case ASCII letter survives. */
  lemma ToTFNameClean(s: string)
    ensures forall i :: 0 <= i < |ToTFName(s)| ==> !IsSeparator(ToTFName(s)[i]) && !IsUpper(ToTFName(s)[i])
  {
    ToTFNamePointwise(s);
  }

  /** Every other character is kept in place, lower-cased; in particular underscores, digits and lower-case letters are unchanged. */
  lemma ToTFNameKeeps(s: string, i: nat)
    requires i < |s| && !IsSeparator(s[i])
    ensures ToTFName(s)[i] == LowerChar(s[i])
    ensures !IsUpper(s[i]) ==> ToTFName(s)[i] == s[i]
  {
    ToTFNamePointwise(s);
  }

  /** Deriving the name of a name changes nothing. */
  lemma ToTFNameIdempotent(s: string)
    ensures ToTFName(ToTFName(s)) == ToTFName(s)
  {
    var t := ToTFName(s);
    ToTFNamePointwise(s);
    ToTFNamePointwise(t);
    forall i | 0 <= i < |t| ensures ToTFName(t)[i] == t[i] {
      assert TfChar(t[i]) == t[i];
    }
  }

  /** Two names agree exactly when their inputs agree after lower-casing and folding separators. */
  lemma ToTFNameEqualIff(s: string, t: string)
    ensures ToTFName(s) == ToTFName(t) <==> |s| == |t| && forall i :: 0 <= i < |s| ==> TfChar(s[i]) == TfChar(t[i])
  {
    ToTFNamePointwise(s);
    ToTFNamePointwise(t);
    if |s| == |t| && forall i :: 0 <= i < |s| ==> TfChar(s[i]) == TfChar(t[i]) {
      assert forall i :: 0 <= i < |s| ==> ToTFName(s)[i] == ToTFName(t)[i];
    }
  }

  /** A string is the name of `s` when it is `s` mapped by `TfChar`. */
  lemma ToTFNameIs(s: string, name: string)
    requires |name| == |s| && forall i :: 0 <= i < |s| ==> name[i] == TfChar(s[i])
    ensures ToTFName(s) == name
  {
    ToTFNamePointwise(s);
  }

  /** The derivation is not one-to-one: names differing only in separators or case collide. */
  lemma ToTFNameCollides(a: string, b: string)
    requires a == "my-vcn" && b == "My.Vcn"
    ensures ToTFName(a) == ToTFName(b) == "my_vcn"
  {
    ToTFNameIs(a, "my_vcn");
    ToTFNameIs(b, "my_vcn");
  }

  // The renderer's own cases.

  lemma ToTFNameShape(s: string)
    requires s == "VM.Standard.A1.Flex"
    ensures ToTFName(s) == "vm_standard_a1_flex"
  {
    ToTFNameIs(s, "vm_standard_a1_flex");
  }

  lemma ToTFNameOsName(s: string)
    requires s == "Canonical Ubuntu"
    ensures ToTFName(s) == "canonical_ubuntu"
  {
    ToTFNameIs(s, "canonical_ubuntu");
  }

  lemma ToTFNameWithDigit(s: string)
    requires s == "Oracle Linux 9"
    ensures ToTFName(s) == "oracle_linux_9"
  {
    ToTFNameIs(s, "oracle_linux_9");
  }

  lemma ToTFNameDashes(s: string)
    requires s == "some-dashed-name"
    ensures ToTFName(s) == "some_dashed_name"
  {
    ToTFNameIs(s, "some_dashed_name");
  }

  lemma ToTFNameMixedCase(s: string)
    requires s == "MixedCase Name"
    ensures ToTFName(s) == "mixedcase_name"
  {
    ToTFNameIs(s, "mixedcase_name");
  }

  lemma ToTFNameRepeatedSpaces(s: string)
    requires s == "multiple   spaces"
    ensures ToTFName(s) == "multiple___spaces"
  {
    ToTFNameIs(s, "multiple___spaces");
  }
}

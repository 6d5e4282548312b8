/**
 * java.beans.Introspector.decapitalize, the rule of section 8.8 ("Capitalization of
 * inferred names") of the JavaBeans 1.01 specification. Letters are the ASCII letters:
 * Character.isUpperCase and Character.toLowerCase agree with this on every field name
 * the collector decapitalizes.
 */
module Introspector {

  predicate IsUpperCase(c: char) {
    'A' <= c <= 'Z'
  }

  predicate IsLowerCase(c: char) {
    'a' <= c <= 'z'
  }

  function ToLowerCase(c: char): (r: char)
    ensures !IsUpperCase(r)
    ensures IsUpperCase(c) ==> IsLowerCase(r)
    ensures !IsUpperCase(c) ==> r == c
  {
    if IsUpperCase(c) then (c as int + ('a' as int - 'A' as int)) as char else c
  }

  /** An acronym-like name: its first two characters are both upper case. */
  predicate StartsWithTwoCapitals(name: string) {
    |name| > 1 && IsUpperCase(name[0]) && IsUpperCase(name[1])
  }

  /** Introspector.decapitalize */
  function Decapitalize(name: string): string {
    if |name| == 0 then name
    else if StartsWithTwoCapitals(name) then name
    else [ToLowerCase(name[0])] + name[1..]
  }

  /**
   * The rule of section 8.8: the length never changes and only the first character can;
   * a name whose first two characters are capitals stays as it is ("AWSErrorCode");
   * otherwise the first character is lower-cased.
   */
  lemma DecapitalizeRule(name: string)
    ensures |Decapitalize(name)| == |name|
    ensures |name| > 0 ==> Decapitalize(name)[1..] == name[1..]
    ensures StartsWithTwoCapitals(name) ==> Decapitalize(name) == name
    ensures |name| > 0 && !StartsWithTwoCapitals(name) ==> Decapitalize(name)[0] == ToLowerCase(name[0])
  {
  }

  /** Decapitalizing a second time changes nothing. */
  lemma DecapitalizeIdempotent(name: string)
    ensures Decapitalize(Decapitalize(name)) == Decapitalize(name)
  {
    DecapitalizeRule(name);
    var d := Decapitalize(name);
    DecapitalizeRule(d);
    if |name| > 0 && !StartsWithTwoCapitals(name) {
      assert !StartsWithTwoCapitals(d);
      assert d == [d[0]] + d[1..];
    }
  }

  /**
   * Two names that both start with a capital letter (as every SDK field name does)
   * decapitalize to the same name only when they are the same name.
   */
  lemma DecapitalizeInjective(a: string, b: string)
    requires |a| > 0 && IsUpperCase(a[0])
    requires |b| > 0 && IsUpperCase(b[0])
    requires Decapitalize(a) == Decapitalize(b)
    ensures a == b
  {
    DecapitalizeRule(a);
    DecapitalizeRule(b);
    assert a[1..] == b[1..];
    assert a[0] == b[0];
    assert a == [a[0]] + a[1..];
    assert b == [b[0]] + b[1..];
  }

  /** Names that start with two capitals are left alone, as in the examples of section 8.8. */
  lemma DecapitalizeKeepsAcronyms()
    ensures Decapitalize("AWSErrorCode") == "AWSErrorCode"
    ensures Decapitalize("URL") == "URL"
  {
    assert StartsWithTwoCapitals("AWSErrorCode");
    assert StartsWithTwoCapitals("URL");
  }

  /** Other names get a lower-case first character, as in the examples of section 8.8. */
  lemma DecapitalizeLowersFirst()
    ensures Decapitalize("") == ""
    ensures Decapitalize("FooBah") == "fooBah"
    ensures Decapitalize("X") == "x"
  {
    assert Decapitalize("FooBah") == "fooBah" by {
      assert Decapitalize("FooBah") == ['f'] + "ooBah";
    }
    assert Decapitalize("X") == "x" by {
      assert Decapitalize("X") == ['x'];
    }
  }
}

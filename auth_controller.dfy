/**
 * The "password" rule that `NewAuthController` registers with the
 * validator: a password needs an ASCII digit, an upper-case and a
 * lower-case ASCII letter, and one of the eight characters `!@#$%^&*`.
 */
module AuthController {

  predicate IsDigit(c: char) {
    '0' <= c <= '9'
  }

  predicate IsUpper(c: char) {
    'A' <= c <= 'Z'
  }

  predicate IsLower(c: char) {
    'a' <= c <= 'z'
  }

  predicate IsSpecial(c: char) {
    c in {'!', '@', '#', '$', '%', '^', '&', '*'}
  }

  /** Some character of s is in the class: `regexp.MatchString` of a one-class pattern. */
  predicate Contains(s: string, inClass: char -> bool) {
    exists i :: 0 <= i < |s| && inClass(s[i])
  }

  /** The validation closure: the conjunction of the four class tests. */
  predicate PasswordAccepted(password: string) {
    && Contains(password, IsDigit)
    && Contains(password, IsUpper)
    && Contains(password, IsLower)
    && Contains(password, IsSpecial)
  }

  /** The characters the rule counts: those of one of the four classes. */
  predicate Counted(c: char) {
    IsDigit(c) || IsUpper(c) || IsLower(c) || IsSpecial(c)
  }

  /** The character classes are pairwise disjoint. */
  lemma ClassesDisjoint(c: char)
    ensures !(IsDigit(c) && IsUpper(c)) && !(IsDigit(c) && IsLower(c)) && !(IsDigit(c) && IsSpecial(c))
    ensures !(IsUpper(c) && IsLower(c)) && !(IsUpper(c) && IsSpecial(c)) && !(IsLower(c) && IsSpecial(c))
  {
  }

  /** Characters none of which is in the class can be inserted anywhere without changing the test. */
  lemma ContainsSplice(a: string, junk: string, b: string, inClass: char -> bool)
    requires forall i :: 0 <= i < |junk| ==> !inClass(junk[i])
    ensures Contains(a + junk + b, inClass) <==> Contains(a + b, inClass)
  {
    var s, t := a + junk + b, a + b;
    forall j | |a| <= j < |a| + |junk|
      ensures !inClass(s[j])
    {
      assert s[j] == junk[j - |a|];
    }
    if Contains(s, inClass) {
      var i :| 0 <= i < |s| && inClass(s[i]);
      if i < |a| {
        assert t[i] == s[i];
      } else {
        assert t[i - |junk|] == s[i];
      }
    }
    if Contains(t, inClass) {
      var i :| 0 <= i < |t| && inClass(t[i]);
      if i < |a| {
        assert s[i] == t[i];
      } else {
        assert s[i + |junk|] == t[i];
      }
    }
  }

  /** Characters outside the four classes count toward none of them: inserting them anywhere changes nothing. */
  lemma UncountedIgnored(a: string, junk: string, b: string)
    requires forall i :: 0 <= i < |junk| ==> !Counted(junk[i])
    ensures PasswordAccepted(a + junk + b) <==> PasswordAccepted(a + b)
  {
    ContainsSplice(a, junk, b, IsDigit);
    ContainsSplice(a, junk, b, IsUpper);
    ContainsSplice(a, junk, b, IsLower);
    ContainsSplice(a, junk, b, IsSpecial);
  }

  /** Appending characters to an accepted password keeps it accepted. */
  lemma AppendKeepsAccepted(p: string, q: string)
    requires PasswordAccepted(p)
    ensures PasswordAccepted(p + q)
  {
    var s := p + q;
    assert forall i :: 0 <= i < |p| ==> s[i] == p[i];
  }

  /** A class test depends only on the multiset of characters. */
  lemma ContainsSameCharacters(p: string, q: string, inClass: char -> bool)
    requires multiset(p) == multiset(q) && Contains(p, inClass)
    ensures Contains(q, inClass)
  {
    var i :| 0 <= i < |p| && inClass(p[i]);
    assert p[i] in multiset(p);
    assert p[i] in q;
  }

  /** Acceptance does not depend on the order of the characters. */
  lemma OrderIrrelevant(p: string, q: string)
    requires multiset(p) == multiset(q)
    ensures PasswordAccepted(p) <==> PasswordAccepted(q)
  {
    if PasswordAccepted(p) {
      ContainsSameCharacters(p, q, IsDigit);
      ContainsSameCharacters(p, q, IsUpper);
      ContainsSameCharacters(p, q, IsLower);
      ContainsSameCharacters(p, q, IsSpecial);
    }
    if PasswordAccepted(q) {
      ContainsSameCharacters(q, p, IsDigit);
      ContainsSameCharacters(q, p, IsUpper);
      ContainsSameCharacters(q, p, IsLower);
      ContainsSameCharacters(q, p, IsSpecial);
    }
  }

  /** Four pairwise disjoint classes must each appear, so an accepted password has at least four characters. */
  lemma AcceptedHasFourCharacters(p: string)
    requires PasswordAccepted(p)
    ensures |p| >= 4
  {
    var d :| 0 <= d < |p| && IsDigit(p[d]);
    var u :| 0 <= u < |p| && IsUpper(p[u]);
    var l :| 0 <= l < |p| && IsLower(p[l]);
    var x :| 0 <= x < |p| && IsSpecial(p[x]);
    ClassesDisjoint(p[d]);
    ClassesDisjoint(p[u]);
    ClassesDisjoint(p[l]);
    assert d != u && d != l && d != x && u != l && u != x && l != x;
  }

  /** A password with one character of each class is accepted. */
  lemma ExampleAccepted()
    ensures PasswordAccepted("Passw0rd!")
  {
    var s := "Passw0rd!";
    assert IsDigit(s[5]) && IsUpper(s[0]) && IsLower(s[1]) && IsSpecial(s[8]);
  }
}

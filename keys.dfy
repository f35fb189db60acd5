/**
 * Key naming for the store (app/db.py): the four key prefixes, the key
 * builders, and the `link:*:<code>` glob the link registry scans with.
 */
module Keys {
  import opened Text

  const LinkKeyPrefix: string := "link:"
  const UserLinksPrefix: string := "user:"
  const UserAccountPrefix: string := "account:"
  const EmailIndexPrefix: string := "email:"

  /** Key of the hash holding one owner's link record for `code`. */
  function LinkKey(userId: string, code: string): (k: string)
    ensures MatchesLinkPattern(k, code)
    ensures k[..|LinkKeyPrefix|] == LinkKeyPrefix
  {
    LinkKeyPrefix + userId + ":" + code
  }

  /** Key of the set holding the codes one owner has created; the owner reads back from it. */
  function UserLinksKey(userId: string): (k: string)
    ensures |k| == |UserLinksPrefix| + |userId| + 6
    ensures k[..|UserLinksPrefix|] == UserLinksPrefix && k[|k| - 6..] == ":links"
    ensures k[|UserLinksPrefix|..|k| - 6] == userId
  {
    UserLinksPrefix + userId + ":links"
  }

  /** Key of the hash holding an account; the identifier reads back from it. */
  function UserAccountKey(userId: string): (k: string)
    ensures |k| == |UserAccountPrefix| + |userId|
    ensures k[..|UserAccountPrefix|] == UserAccountPrefix && k[|UserAccountPrefix|..] == userId
  {
    UserAccountPrefix + userId
  }

  /** Key of the string mapping an email to an account id; the email is lower-cased. */
  function EmailIndexKey(email: string): (k: string)
    ensures |k| >= |EmailIndexPrefix|
    ensures k[..|EmailIndexPrefix|] == EmailIndexPrefix && k[|EmailIndexPrefix|..] == Lower(email)
    ensures Lower(k[|EmailIndexPrefix|..]) == k[|EmailIndexPrefix|..]
  {
    LowerIdempotent(email);
    EmailIndexPrefix + Lower(email)
  }

  /**
   * `fnmatch(key, "link:*:" + code)` for a code without glob characters:
   * the key is `link:`, then any text (possibly empty), then `:` and the code.
   */
  predicate MatchesLinkPattern(key: string, code: string) {
    |key| >= |LinkKeyPrefix| + 1 + |code|
    && key[..|LinkKeyPrefix|] == LinkKeyPrefix
    && key[|key| - |code| - 1..] == ":" + code
  }

  /**
   * A code that neither widens the glob (`*`, `?`, `[`) nor contains the
   * `:` that separates owner from code in a link key.
   */
  predicate PlainCode(code: string) {
    forall i :: 0 <= i < |code| ==> code[i] != '*' && code[i] != '?' && code[i] != '[' && code[i] != ':'
  }

  /** Every key the pattern matches is the link key of the text between prefix and code. */
  lemma MatchedKeyIsLinkKey(key: string, code: string)
    requires MatchesLinkPattern(key, code)
    ensures key == LinkKey(key[|LinkKeyPrefix|..|key| - |code| - 1], code)
  {
    var middle := key[|LinkKeyPrefix|..|key| - |code| - 1];
    assert key == key[..|LinkKeyPrefix|] + middle + key[|key| - |code| - 1..];
  }

  /**
   * With plain codes, the scan for `code` finds the link key of `other`
   * exactly when the two codes are equal, whoever the owner is.
   */
  lemma {:induction false} PlainPatternsSeparate(userId: string, other: string, code: string)
    requires PlainCode(code) && PlainCode(other)
    ensures MatchesLinkPattern(LinkKey(userId, other), code) <==> other == code
  {
    var k := LinkKey(userId, other);
    if MatchesLinkPattern(k, code) {
      var tail := k[|k| - |code| - 1..];
      assert tail == ":" + code;
      // the separator before `other` and the first character the glob's `:` can sit on
      assert k[|k| - |other| - 1] == ':';
      assert k[|k| - |code| - 1] == ':';
      assert |code| == |other|;
      assert code == tail[1..] == other;
    }
  }

  /** For one code, distinct owners have distinct link keys. */
  lemma LinkKeyOwnerInjective(u1: string, u2: string, code: string)
    ensures LinkKey(u1, code) == LinkKey(u2, code) <==> u1 == u2
  {
    if LinkKey(u1, code) == LinkKey(u2, code) {
      assert |u1| == |u2|;
      assert u1 == LinkKey(u1, code)[|LinkKeyPrefix|..|LinkKeyPrefix| + |u1|];
      assert u2 == LinkKey(u2, code)[|LinkKeyPrefix|..|LinkKeyPrefix| + |u2|];
    }
  }

  /** Two plain-coded link keys are equal only for the same owner and code. */
  lemma LinkKeyInjective(u1: string, c1: string, u2: string, c2: string)
    requires PlainCode(c1) && PlainCode(c2)
    requires LinkKey(u1, c1) == LinkKey(u2, c2)
    ensures u1 == u2 && c1 == c2
  {
    PlainPatternsSeparate(u1, c1, c2);
    assert u1 == LinkKey(u1, c1)[|LinkKeyPrefix|..|LinkKey(u1, c1)| - |c1| - 1];
    assert u2 == LinkKey(u2, c2)[|LinkKeyPrefix|..|LinkKey(u2, c2)| - |c2| - 1];
  }

  /** The remaining builders are injective too. */
  lemma OwnerKeysInjective(u1: string, u2: string)
    ensures UserLinksKey(u1) == UserLinksKey(u2) ==> u1 == u2
    ensures UserAccountKey(u1) == UserAccountKey(u2) ==> u1 == u2
  {
    if UserLinksKey(u1) == UserLinksKey(u2) {
      assert u1 == UserLinksKey(u1)[|UserLinksPrefix|..|UserLinksKey(u1)| - 6];
    }
    if UserAccountKey(u1) == UserAccountKey(u2) {
      assert u1 == UserAccountKey(u1)[|UserAccountPrefix|..];
    }
  }

  /** Emails that differ only in letter case share one index key, and only those do. */
  lemma EmailIndexKeyCaseInsensitive(e1: string, e2: string)
    ensures EmailIndexKey(e1) == EmailIndexKey(e2) <==> Lower(e1) == Lower(e2)
  {
    if EmailIndexKey(e1) == EmailIndexKey(e2) {
      assert Lower(e1) == EmailIndexKey(e1)[|EmailIndexPrefix|..];
    }
  }

  /**
   * The four prefixes begin with different letters, so keys built by
   * different helpers never collide.
   */
  lemma KeyFamiliesDisjoint(u: string, c: string, v: string, w: string, e: string)
    ensures LinkKey(u, c) != UserLinksKey(v) && LinkKey(u, c) != UserAccountKey(v)
    ensures LinkKey(u, c) != EmailIndexKey(e)
    ensures UserLinksKey(v) != UserAccountKey(w) && UserLinksKey(v) != EmailIndexKey(e)
    ensures UserAccountKey(w) != EmailIndexKey(e)
  {
    assert LinkKey(u, c)[0] == 'l';
    assert UserLinksKey(v)[0] == 'u';
    assert UserAccountKey(w)[0] == 'a';
    assert EmailIndexKey(e)[0] == 'e';
  }
}

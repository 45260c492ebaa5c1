/** External identifiers: which namespace identifies which kind of entity, and the one spelling that is stored. */
module Identities {
  import opened TextOrder
  import opened Provenance
  import Isbn

  const NAMESPACE_KINDS: map<string, set<Kind>> := map[
    "tmdb.movie" := {Movie}, "tmdb.series" := {Series}, "tvdb.series" := {Series}, "tvdb.movie" := {Movie},
    "imdb.title" := {Movie, Series}, "tmdb.person" := {Person}, "tvdb.person" := {Person},
    "tmdb.company" := {Organization}, "tmdb.network" := {Organization}, "tvdb.company" := {Organization},
    "igdb.game" := {Game}, "igdb.character" := {Character}, "igdb.company" := {Organization},
    "igdb.collection" := {GameCollection}, "igdb.release" := {Release}, "igdb.game_version" := {Release},
    "rawg.game" := {Game}, "rawg.developer" := {Organization}, "rawg.publisher" := {Organization},
    "rawg.release" := {Release},
    "hardcover.book" := {Book}, "hardcover.author" := {Person}, "hardcover.publisher" := {Organization},
    "hardcover.character" := {Character}, "hardcover.edition" := {Edition}, "hardcover.series" := {BookSeries},
    "openlibrary.book" := {Book}, "openlibrary.edition" := {Edition}, "openlibrary.author" := {Person},
    "isbn.10" := {Edition}, "isbn.13" := {Edition}, "steam.app" := {Game}, "itad.game" := {Game}]

  const MAX_IDENTIFIER := 200

  // ----- Trimming

  function StripLeft(s: string): (r: string)
    ensures |r| <= |s| && (r == "" || !Isbn.Space(r[0]))
  {
    if s != "" && Isbn.Space(s[0]) then StripLeft(s[1..]) else s
  }

  function StripRight(s: string): (r: string)
    ensures r <= s && (r == "" || !Isbn.Space(r[|r| - 1]))
  {
    if s != "" && Isbn.Space(s[|s| - 1]) then StripRight(s[..|s| - 1]) else s
  }

  function Strip(s: string): string {
    StripRight(StripLeft(s))
  }

  lemma StripTwice(s: string)
    ensures Strip(Strip(s)) == Strip(s) && |Strip(s)| <= |s|
  {
    var t := Strip(s);
    assert t != "" ==> t[0] == StripLeft(s)[0];
  }

  lemma StripKeeps(s: string)
    requires forall i :: 0 <= i < |s| ==> !Isbn.Space(s[i])
    ensures Strip(s) == s
  {}

  // ----- Numbers

  predicate Digits(s: string) {
    s != "" && forall i :: 0 <= i < |s| ==> Isbn.Numeral(s[i])
  }

  function Number(s: string): int {
    if s == "" then 0 else Number(s[..|s| - 1]) * 10 + (s[|s| - 1] as int - '0' as int)
  }

  /** A number written without leading zeros; empty for zero. */
  function StripZeros(s: string): (r: string)
    ensures |r| <= |s| && (r == "" || r[0] != '0')
  {
    if s != "" && s[0] == '0' then StripZeros(s[1..]) else s
  }

  lemma {:induction false} NumberOfZeros(s: string)
    requires s != "" && s[0] == '0'
    ensures Number(s) == Number(s[1..])
  {
    if |s| > 1 {
      NumberOfZeros(s[..|s| - 1]);
      assert s[..|s| - 1][1..] == s[1..][..|s| - 2];
    }
  }

  lemma {:induction false} StripZerosKeepsNumber(s: string)
    ensures Number(StripZeros(s)) == Number(s)
    ensures Digits(s) ==> StripZeros(s) == "" || Digits(StripZeros(s))
  {
    if s != "" && s[0] == '0' {
      NumberOfZeros(s);
      if |s| > 1 {
        assert Digits(s) ==> Digits(s[1..]);
      }
      StripZerosKeepsNumber(s[1..]);
    }
  }

  /** A numeral without leading zeros: determined by its number. */
  predicate Plain(s: string) {
    (forall i :: 0 <= i < |s| ==> Isbn.Numeral(s[i])) && (s != "" ==> s[0] != '0')
  }

  lemma {:induction false} PlainPositive(s: string)
    requires Plain(s) && s != ""
    ensures Number(s) > 0
  {
    if |s| > 1 {
      PlainPositive(s[..|s| - 1]);
    }
  }

  lemma {:induction false} PlainUnique(s: string, t: string)
    requires Plain(s) && Plain(t) && Number(s) == Number(t)
    ensures s == t
  {
    if s == "" || t == "" {
      if s != "" { PlainPositive(s); }
      if t != "" { PlainPositive(t); }
    } else {
      PlainUnique(s[..|s| - 1], t[..|t| - 1]);
      assert s == s[..|s| - 1] + [s[|s| - 1]] && t == t[..|t| - 1] + [t[|t| - 1]];
    }
  }

  // ----- Canonical identifiers

  predicate HasPrefix(s: string, p: string) { p <= s }

  predicate Numeric(namespace: string) {
    HasPrefix(namespace, "tmdb.") || HasPrefix(namespace, "tvdb.") || HasPrefix(namespace, "hardcover.")
    || HasPrefix(namespace, "igdb.")
    || namespace in ["steam.app", "rawg.game", "rawg.developer", "rawg.publisher"]
  }

  predicate ImdbTitle(s: string) {
    |s| >= 3 && s[..2] == "tt" && Digits(s[2..])
  }

  predicate OpenLibrary(s: string, suffix: char) {
    |s| >= 4 && s[..2] == "OL" && s[2] != '0' && Digits(s[2..|s| - 1]) && s[|s| - 1] == suffix
  }

  /** The stored form of an identifier, or nothing when it is refused. */
  function Canonical(namespace: string, externalId: string): Option<string> {
    if namespace !in NAMESPACE_KINDS || externalId == "" || |externalId| > MAX_IDENTIFIER then None
    else
      var s := Strip(externalId);
      if s == "" then None
      else if Numeric(namespace) then if Digits(s) && StripZeros(s) != "" then Some(StripZeros(s)) else None
      else if namespace == "imdb.title" then if ImdbTitle(s) then Some(s) else None
      else if namespace == "isbn.10" then Isbn.Isbn(s, 10)
      else if namespace == "isbn.13" then Isbn.Isbn(s, 13)
      else if namespace == "openlibrary.book" then if OpenLibrary(s, 'W') then Some(s) else None
      else if namespace == "openlibrary.edition" then if OpenLibrary(s, 'M') then Some(s) else None
      else if namespace == "openlibrary.author" then if OpenLibrary(s, 'A') then Some(s) else None
      else Some(s)
  }

  /** validate_identity, with the kind of the entity that is to carry the identifier. */
  function CanonicalFor(namespace: string, externalId: string, kind: Kind): (r: Option<string>)
    ensures r.Some? ==> namespace in NAMESPACE_KINDS && kind in NAMESPACE_KINDS[namespace]
    ensures namespace in NAMESPACE_KINDS && kind in NAMESPACE_KINDS[namespace] ==> r == Canonical(namespace, externalId)
  {
    if namespace in NAMESPACE_KINDS && kind in NAMESPACE_KINDS[namespace] then Canonical(namespace, externalId)
    else None
  }

  lemma DigitsStay(s: string)
    requires Digits(s)
    ensures Strip(s) == s
  {
    StripKeeps(s);
  }

  /** What is stored validates as itself: looking an identifier up validates it a second time. */
  lemma CanonicalIdempotent(namespace: string, externalId: string)
    requires Canonical(namespace, externalId).Some?
    ensures Canonical(namespace, Canonical(namespace, externalId).value) == Canonical(namespace, externalId)
  {
    hide NAMESPACE_KINDS, Numeric, Strip, Digits, StripZeros, ImdbTitle, OpenLibrary;
    var s := Strip(externalId);
    StripTwice(externalId);
    if Numeric(namespace) {
      NumberStays(s);
    } else if namespace == "isbn.10" {
      IsbnStays(s, 10);
    } else if namespace == "isbn.13" {
      IsbnStays(s, 13);
    }
  }

  lemma NumberStays(s: string)
    requires Digits(s) && StripZeros(s) != ""
    ensures var c := StripZeros(s); Strip(c) == c && Digits(c) && StripZeros(c) == c && |c| <= |s|
  {
    StripZerosKeepsNumber(s);
    DigitsStay(StripZeros(s));
  }

  lemma IsbnStays(s: string, length: int)
    requires Isbn.Isbn(s, length).Some?
    ensures var c := Isbn.Isbn(s, length).value; Strip(c) == c && 0 < |c| <= 13 && Isbn.Isbn(c, length) == Some(c)
  {
    Isbn.IsbnIdempotent(s, length);
    Isbn.IsbnAccepts(s, length);
    StripKeeps(Isbn.Isbn(s, length).value);
  }

  /** Two spellings of a provider number are one identifier exactly when they are the same number. */
  lemma SameNumberSameIdentifier(namespace: string, a: string, b: string)
    requires namespace in NAMESPACE_KINDS && Numeric(namespace)
    requires Canonical(namespace, a).Some? && Canonical(namespace, b).Some?
    ensures Canonical(namespace, a) == Canonical(namespace, b) <==> Number(Strip(a)) == Number(Strip(b))
  {
    StripZerosKeepsNumber(Strip(a));
    StripZerosKeepsNumber(Strip(b));
    if Number(Strip(a)) == Number(Strip(b)) {
      PlainUnique(StripZeros(Strip(a)), StripZeros(Strip(b)));
    }
  }

  // ----- which identifiers are accepted

  predicate AllSpace(s: string) {
    forall i :: 0 <= i < |s| ==> Isbn.Space(s[i])
  }

  lemma {:induction false} StripLeftMeans(s: string)
    ensures exists a :: AllSpace(a) && s == a + StripLeft(s)
  {
    if s != "" && Isbn.Space(s[0]) {
      StripLeftMeans(s[1..]);
      var a :| AllSpace(a) && s[1..] == a + StripLeft(s[1..]);
      assert AllSpace([s[0]] + a) && s == [s[0]] + a + StripLeft(s);
    } else {
      assert AllSpace("") && s == "" + StripLeft(s);
    }
  }

  lemma {:induction false} StripRightMeans(s: string)
    ensures exists b :: AllSpace(b) && s == StripRight(s) + b
  {
    if s != "" && Isbn.Space(s[|s| - 1]) {
      var init := s[..|s| - 1];
      StripRightMeans(init);
      var b :| AllSpace(b) && init == StripRight(init) + b;
      assert AllSpace(b + [s[|s| - 1]]) && s == StripRight(s) + (b + [s[|s| - 1]]);
    } else {
      assert AllSpace("") && s == StripRight(s) + "";
    }
  }

  /** Stripping takes white space off both ends, and all of it. */
  lemma StripMeans(s: string)
    ensures exists a, b :: AllSpace(a) && AllSpace(b) && s == a + Strip(s) + b
    ensures Strip(s) != "" ==> !Isbn.Space(Strip(s)[0]) && !Isbn.Space(Strip(s)[|Strip(s)| - 1])
  {
    hide AllSpace;
    StripLeftMeans(s);
    StripRightMeans(StripLeft(s));
    var a :| AllSpace(a) && s == a + StripLeft(s);
    var b :| AllSpace(b) && StripLeft(s) == Strip(s) + b;
    assert s == a + Strip(s) + b;
    assert Strip(s) != "" ==> Strip(s)[0] == StripLeft(s)[0];
  }

  /** A provider's number: digits only, and not zero; it is stored as that number without leading zeros. */
  lemma NumbersAccepted(namespace: string, externalId: string)
    requires namespace in NAMESPACE_KINDS && Numeric(namespace) && 0 < |externalId| <= 200
    ensures Canonical(namespace, externalId).Some? <==> Digits(Strip(externalId)) && Number(Strip(externalId)) > 0
    ensures Canonical(namespace, externalId).Some? ==>
      && Plain(Canonical(namespace, externalId).value)
      && Number(Canonical(namespace, externalId).value) == Number(Strip(externalId))
  {
    var s := Strip(externalId);
    StripZerosKeepsNumber(s);
    if Digits(s) && StripZeros(s) != "" {
      PlainPositive(StripZeros(s));
    }
  }

  /** Other identifiers are stored as they are: an IMDb title has the letters tt and digits. */
  lemma TitlesAccepted(externalId: string)
    requires 0 < |externalId| <= 200
    ensures Canonical("imdb.title", externalId).Some? <==> exists d :: Digits(d) && Strip(externalId) == "tt" + d
    ensures Canonical("imdb.title", externalId).Some? ==> Canonical("imdb.title", externalId) == Some(Strip(externalId))
  {
    var s := Strip(externalId);
    WordedNamespaces();
    assert WORDED[0] == "imdb.title";
    if ImdbTitle(s) {
      assert s == "tt" + s[2..];
    }
    if d :| Digits(d) && s == "tt" + d {
      assert s[..2] == "tt" && s[2..] == d;
    }
  }

  function Suffix(namespace: string): char {
    if namespace == "openlibrary.book" then 'W' else if namespace == "openlibrary.edition" then 'M' else 'A'
  }

  /** An Open Library key has the letters OL, a number without leading zero, and the letter of its kind. */
  lemma OpenLibraryAccepted(namespace: string, externalId: string)
    requires namespace in ["openlibrary.book", "openlibrary.edition", "openlibrary.author"] && 0 < |externalId| <= 200
    ensures Canonical(namespace, externalId).Some? <==>
            exists d :: Digits(d) && d[0] != '0' && Strip(externalId) == "OL" + d + [Suffix(namespace)]
    ensures Canonical(namespace, externalId).Some? ==> Canonical(namespace, externalId) == Some(Strip(externalId))
  {
    WordedNamespaces();
    assert WORDED[3] == "openlibrary.book" && WORDED[4] == "openlibrary.edition" && WORDED[5] == "openlibrary.author";
    OpenLibraryMeans(Strip(externalId), Suffix(namespace));
  }

  lemma OpenLibraryMeans(s: string, suffix: char)
    ensures OpenLibrary(s, suffix) <==> exists d :: Digits(d) && d[0] != '0' && s == "OL" + d + [suffix]
  {
    if OpenLibrary(s, suffix) {
      var d := s[2..|s| - 1];
      assert s == s[..2] + d + [s[|s| - 1]];
      assert Digits(d) && d[0] != '0' && s == "OL" + d + [suffix];
    }
    if d :| Digits(d) && d[0] != '0' && s == "OL" + d + [suffix] {
      assert s[..2] == "OL" && s[2..|s| - 1] == d && s[2] == d[0];
    }
  }

  lemma NoPrefix(namespace: string)
    requires |namespace| >= 2 && namespace[0] != 't' && namespace[0] != 'h'
    requires namespace[0] == 'i' ==> namespace[1] != 'g'
    ensures !HasPrefix(namespace, "tmdb.") && !HasPrefix(namespace, "tvdb.") && !HasPrefix(namespace, "hardcover.")
    ensures !HasPrefix(namespace, "igdb.")
  {
    assert "tmdb."[0] == 't' && "tvdb."[0] == 't' && "hardcover."[0] == 'h' && "igdb."[0] == 'i' && "igdb."[1] == 'g';
  }

  const WORDED := ["imdb.title", "isbn.10", "isbn.13", "openlibrary.book", "openlibrary.edition", "openlibrary.author",
                   "rawg.release", "itad.game"]

  /** The namespaces whose identifiers are not just numbers. */
  lemma WordedNamespaces()
    ensures forall i :: 0 <= i < |WORDED| ==> WORDED[i] in NAMESPACE_KINDS && !Numeric(WORDED[i])
  {
    hide HasPrefix;
    forall i | 0 <= i < |WORDED|
      ensures !HasPrefix(WORDED[i], "tmdb.") && !HasPrefix(WORDED[i], "tvdb.") && !HasPrefix(WORDED[i], "hardcover.")
      ensures !HasPrefix(WORDED[i], "igdb.")
    {
      NoPrefix(WORDED[i]);
    }
  }

  /** A namespace stands for one kind, except that an IMDb title is a film or a series. */
  lemma NamespaceKinds()
    ensures NAMESPACE_KINDS["imdb.title"] == {Movie, Series}
    ensures forall n :: n in NAMESPACE_KINDS && n != "imdb.title" ==> exists kind :: NAMESPACE_KINDS[n] == {kind}
  {}
}

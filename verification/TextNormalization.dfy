/** Names as match keys: the regular-expression pipeline of normalize_name, the independently
    written slugify_region_key, and the reference both meet: the words of the lower-cased text
    joined by single underscores.

    Lower-casing acts character by character, and may lengthen the text. */
module TextNormalization {
  import Deduplication

  datatype Alphabet = Alphabet(lower: char -> string, isSpace: char -> bool)

  predicate IsWordChar(c: char) { 'a' <= c <= 'z' || '0' <= c <= '9' }

  // What is needed of lower-casing and of white space; Python's tables satisfy it.
  ghost predicate Sound(al: Alphabet) {
    && (forall c: char :: IsWordChar(c) || c == '_' ==> al.lower(c) == [c])
    && (forall c: char :: al.isSpace(c) ==> !IsWordChar(c) && al.lower(c) == [c])
    && al.isSpace(' ')
  }

  /******* The two pipelines *******/

  function Lower(s: string, al: Alphabet): string {
    if s == [] then [] else al.lower(s[0]) + Lower(s[1..], al)
  }

  // Everything but word characters and white space becomes a blank.
  function Sanitize(s: string, al: Alphabet): string {
    if s == [] then []
    else [if IsWordChar(s[0]) || al.isSpace(s[0]) then s[0] else ' '] + Sanitize(s[1..], al)
  }

  // Each maximal run of characters that `hit` accepts becomes one underscore.
  function Collapse(s: string, hit: char -> bool): string {
    if s == [] then []
    else if !hit(s[0]) then [s[0]] + Collapse(s[1..], hit)
    else if |s| > 1 && hit(s[1]) then Collapse(s[1..], hit)
    else "_" + Collapse(s[1..], hit)
  }

  function StripLeft(s: string, hit: char -> bool): string {
    if s != [] && hit(s[0]) then StripLeft(s[1..], hit) else s
  }

  function StripRight(s: string, hit: char -> bool): string {
    if s != [] && hit(s[|s| - 1]) then StripRight(s[..|s| - 1], hit) else s
  }

  function Strip(s: string, hit: char -> bool): string { StripRight(StripLeft(s, hit), hit) }

  const IS_UNDERSCORE := (c: char) => c == '_'
  const IS_BREAK := (c: char) => !IsWordChar(c)

  function Normalize(name: string, al: Alphabet): string {
    Strip(Collapse(Sanitize(Lower(name, al), al), al.isSpace), IS_UNDERSCORE)
  }

  function Slug(value: string, al: Alphabet): string {
    Strip(Collapse(Lower(Strip(value, al.isSpace), al), IS_BREAK), IS_UNDERSCORE)
  }

  function SlugifyRegionKey(value: string, al: Alphabet): string {
    var slug := Slug(value, al);
    if slug == [] then "custom_region" else slug
  }

  /******* The reference *******/

  function Words(s: string): seq<string> {
    if s == [] then []
    else if !IsWordChar(s[0]) then Words(s[1..])
    else
      var rest := Words(s[1..]);
      if |s| > 1 && IsWordChar(s[1]) && rest != [] then [[s[0]] + rest[0]] + rest[1..] else [[s[0]]] + rest
  }

  function Join(words: seq<string>): string {
    if words == [] then []
    else if |words| == 1 then words[0]
    else words[0] + "_" + Join(words[1..])
  }

  ghost predicate IsWord(w: string) { w != [] && forall i :: 0 <= i < |w| ==> IsWordChar(w[i]) }

  ghost predicate AreWords(words: seq<string>) { forall i :: 0 <= i < |words| ==> IsWord(words[i]) }

  // Word characters with single underscores strictly inside.
  ghost predicate Canonical(t: string) {
    && (forall i :: 0 <= i < |t| ==> IsWordChar(t[i]) || t[i] == '_')
    && (forall i :: 0 <= i < |t| - 1 ==> IsWordChar(t[i]) || IsWordChar(t[i + 1]))
    && (t != [] ==> IsWordChar(t[0]) && IsWordChar(t[|t| - 1]))
  }

  lemma {:induction false} WordsAreWords(s: string)
    ensures AreWords(Words(s))
    ensures s != [] && IsWordChar(s[0]) ==> Words(s) != []
  {
    if s != [] {
      WordsAreWords(s[1..]);
    }
  }

  lemma {:induction false} JoinIsCanonical(words: seq<string>)
    requires AreWords(words)
    ensures Canonical(Join(words))
    ensures words != [] ==> Join(words) != []
  {
    if |words| > 1 {
      JoinIsCanonical(words[1..]);
      var w, rest := words[0], Join(words[1..]);
      var t := w + "_" + rest;
      assert IsWord(w);
      assert t[0] == w[0] && t[|t| - 1] == rest[|rest| - 1];
      forall i | 0 <= i < |t| - 1
        ensures IsWordChar(t[i]) || IsWordChar(t[i + 1])
      {
        if i > |w| {
          assert t[i] == rest[i - |w| - 1] && t[i + 1] == rest[i - |w|];
        }
      }
    } else if |words| == 1 {
      assert IsWord(words[0]);
    }
  }

  /******* Collapsing computes the join *******/

  function Lead(s: string): string { if s != [] && !IsWordChar(s[0]) then "_" else "" }

  function Trail(s: string): string {
    if Words(s) != [] && !IsWordChar(s[|s| - 1]) then "_" else ""
  }

  lemma {:induction false} CollapseSanitized(s: string, al: Alphabet)
    requires Sound(al)
    ensures |Sanitize(s, al)| == |s|
    ensures forall i :: 0 <= i < |s| ==> al.isSpace(Sanitize(s, al)[i]) == !IsWordChar(s[i])
    ensures Collapse(Sanitize(s, al), al.isSpace) == Collapse(s, IS_BREAK)
  {
    if s != [] {
      CollapseSanitized(s[1..], al);
      var t := Sanitize(s, al);
      assert t[1..] == Sanitize(s[1..], al);
      assert forall i :: 1 <= i < |s| ==> t[i] == Sanitize(s[1..], al)[i - 1] && s[i] == s[1..][i - 1];
    }
  }

  lemma {:induction false} CollapseIsJoin(s: string)
    ensures Collapse(s, IS_BREAK) == Lead(s) + Join(Words(s)) + Trail(s)
  {
    if s == [] {
    } else if |s| == 1 {
      assert s[1..] == [];
    } else {
      CollapseIsJoin(s[1..]);
      WordsAreWords(s[1..]);
      if IsWordChar(s[0]) {
        CollapseStart(s);
      }
    }
  }

  // The inductive step at a word character.
  lemma CollapseStart(s: string)
    requires |s| > 1 && IsWordChar(s[0])
    requires Collapse(s[1..], IS_BREAK) == Lead(s[1..]) + Join(Words(s[1..])) + Trail(s[1..])
    ensures Collapse(s, IS_BREAK) == Lead(s) + Join(Words(s)) + Trail(s)
  {
    var rest, tail := Words(s[1..]), Trail(s[1..]);
    WordsAreWords(s[1..]);
    WordStart(s);
    assert Collapse(s, IS_BREAK) == [s[0]] + (Lead(s[1..]) + Join(rest) + tail);
    Regroup([s[0]], Lead(s[1..]), Join(rest), tail);
    if rest == [] {
      NoWordsNoEnd(s[1..]);
      assert Lead(s[1..]) == "_";
    }
  }

  lemma Regroup(a: string, b: string, c: string, d: string)
    ensures a + (b + c + d) == (a + b + c) + d
  {
  }

  // A word character in front extends the first word, or starts one of its own.
  lemma WordStart(s: string)
    requires |s| > 1 && IsWordChar(s[0])
    ensures var rest := Words(s[1..]);
            && Words(s) != []
            && Join(Words(s)) == [s[0]] + (if rest == [] then "" else Lead(s[1..])) + Join(rest)
  {
    var rest := Words(s[1..]);
    WordsAreWords(s[1..]);
    if IsWordChar(s[1]) {
      JoinGrowsFirst(s[0], rest);
      assert [s[0]] + "" == [s[0]];
    } else if rest != [] {
      assert Words(s) == [[s[0]]] + rest;
      assert Words(s)[1..] == rest;
    }
  }

  lemma JoinGrowsFirst(c: char, words: seq<string>)
    requires words != []
    ensures Join([[c] + words[0]] + words[1..]) == [c] + Join(words)
  {
    var first, rest := words[0], words[1..];
    var grown := [[c] + first] + rest;
    assert grown[0] == [c] + first && grown[1..] == rest;
    if |words| > 1 {
      Associate([c], first, "_", Join(rest));
    }
  }

  lemma Associate(a: string, b: string, c: string, d: string)
    ensures (a + b) + c + d == a + (b + c + d)
  {
  }

  lemma {:induction false} NoWordsNoEnd(s: string)
    requires Words(s) == [] && s != []
    ensures !IsWordChar(s[|s| - 1])
  {
    if |s| > 1 {
      WordsAreWords(s);
      NoWordsNoEnd(s[1..]);
    }
  }

  lemma {:induction false} StripLeftAround(a: string, b: string, hit: char -> bool)
    requires forall i :: 0 <= i < |a| ==> hit(a[i])
    requires b != [] ==> !hit(b[0])
    ensures StripLeft(a + b, hit) == b
  {
    if a == [] {
      assert a + b == b;
    } else {
      assert (a + b)[1..] == a[1..] + b;
      StripLeftAround(a[1..], b, hit);
    }
  }

  lemma {:induction false} StripRightAround(b: string, c: string, hit: char -> bool)
    requires forall i :: 0 <= i < |c| ==> hit(c[i])
    requires b != [] ==> !hit(b[|b| - 1])
    ensures StripRight(b + c, hit) == b
  {
    if c == [] {
      assert b + c == b;
    } else {
      assert (b + c)[..|b + c| - 1] == b + c[..|c| - 1];
      StripRightAround(b, c[..|c| - 1], hit);
    }
  }

  // Stripping a body that starts and ends with word characters, with at most an underscore on
  // either side.
  lemma StripAround(lead: string, body: string, trail: string)
    requires lead == "" || lead == "_"
    requires trail == "" || (trail == "_" && body != [])
    requires body != [] ==> body[0] != '_' && body[|body| - 1] != '_'
    ensures Strip(lead + body + trail, IS_UNDERSCORE) == body
  {
    assert lead + body + trail == lead + (body + trail);
    if body == [] {
      assert body + trail == [];
    } else {
      assert (body + trail)[0] == body[0];
    }
    StripLeftAround(lead, body + trail, IS_UNDERSCORE);
    StripRightAround(body, trail, IS_UNDERSCORE);
  }

  lemma StripCollapsed(s: string)
    ensures Strip(Collapse(s, IS_BREAK), IS_UNDERSCORE) == Join(Words(s))
  {
    CollapseIsJoin(s);
    WordsAreWords(s);
    JoinIsCanonical(Words(s));
    StripAround(Lead(s), Join(Words(s)), Trail(s));
  }

  /** normalize_name yields the words of the lower-cased text joined by single underscores. */
  lemma NormalizeJoinsWords(name: string, al: Alphabet)
    requires Sound(al)
    ensures Normalize(name, al) == Join(Words(Lower(name, al)))
  {
    CollapseSanitized(Lower(name, al), al);
    StripCollapsed(Lower(name, al));
  }

  /******* The slug *******/

  lemma {:induction false} WordsIgnoreEnd(s: string, c: char)
    requires !IsWordChar(c)
    ensures Words(s + [c]) == Words(s)
  {
    if s != [] {
      assert (s + [c])[1..] == s[1..] + [c];
      WordsIgnoreEnd(s[1..], c);
    } else {
      assert s + [c] == [c] && [c][1..] == [];
    }
  }

  lemma {:induction false} LowerSplits(s: string, t: string, al: Alphabet)
    ensures Lower(s + t, al) == Lower(s, al) + Lower(t, al)
  {
    if s == [] {
      assert s + t == t;
    } else {
      assert (s + t)[1..] == s[1..] + t;
      LowerSplits(s[1..], t, al);
    }
  }

  lemma {:induction false} StripLeftKeepsWords(s: string, al: Alphabet)
    requires Sound(al)
    ensures Words(Lower(StripLeft(s, al.isSpace), al)) == Words(Lower(s, al))
  {
    if s != [] && al.isSpace(s[0]) {
      StripLeftKeepsWords(s[1..], al);
      assert Lower(s, al)[1..] == Lower(s[1..], al);
    }
  }

  lemma {:induction false} StripRightKeepsWords(s: string, al: Alphabet)
    requires Sound(al)
    ensures Words(Lower(StripRight(s, al.isSpace), al)) == Words(Lower(s, al))
  {
    if s != [] && al.isSpace(s[|s| - 1]) {
      var init, c := s[..|s| - 1], s[|s| - 1];
      StripRightKeepsWords(init, al);
      assert s == init + [c];
      LowerSplits(init, [c], al);
      assert [c][1..] == [];
      assert Lower([c], al) == [c];
      WordsIgnoreEnd(Lower(init, al), c);
    }
  }

  /** Two independently written pipelines, one match key: slugify_region_key equals
      normalize_name on every input, except that an empty result becomes `custom_region`. */
  lemma SlugIsNormalize(value: string, al: Alphabet)
    requires Sound(al)
    ensures SlugifyRegionKey(value, al)
            == (if Normalize(value, al) == [] then "custom_region" else Normalize(value, al))
  {
    NormalizeJoinsWords(value, al);
    StripLeftKeepsWords(value, al);
    StripRightKeepsWords(StripLeft(value, al.isSpace), al);
    StripCollapsed(Lower(Strip(value, al.isSpace), al));
  }

  /******* Fixed points *******/

  lemma {:induction false} LowerOfCanonical(t: string, al: Alphabet)
    requires Sound(al)
    requires forall i :: 0 <= i < |t| ==> IsWordChar(t[i]) || t[i] == '_'
    ensures Lower(t, al) == t
  {
    if t != [] {
      LowerOfCanonical(t[1..], al);
    }
  }

  lemma {:induction false} CollapseOfCanonical(t: string)
    requires forall i :: 0 <= i < |t| ==> IsWordChar(t[i]) || t[i] == '_'
    requires forall i :: 0 <= i < |t| - 1 ==> IsWordChar(t[i]) || IsWordChar(t[i + 1])
    ensures Collapse(t, IS_BREAK) == t
  {
    if t != [] {
      CollapseOfCanonical(t[1..]);
      assert |t| > 1 ==> IsWordChar(t[0]) || IsWordChar(t[1]);
    }
  }

  /** Normalising leaves a text alone exactly when it is word characters with single underscores
      strictly inside. */
  lemma FixedPoints(t: string, al: Alphabet)
    requires Sound(al)
    ensures Normalize(t, al) == t <==> Canonical(t)
  {
    WordsAreWords(Lower(t, al));
    JoinIsCanonical(Words(Lower(t, al)));
    NormalizeJoinsWords(t, al);
    if Canonical(t) {
      LowerOfCanonical(t, al);
      CollapseOfCanonical(t);
      StripCollapsed(t);
      StripLeftAround([], t, IS_UNDERSCORE);
      assert [] + t == t && t + [] == t;
      StripRightAround(t, [], IS_UNDERSCORE);
    }
  }

  /** Every result has that form, so normalising again changes nothing. */
  lemma Idempotent(name: string, al: Alphabet)
    requires Sound(al)
    ensures Canonical(Normalize(name, al))
    ensures Normalize(Normalize(name, al), al) == Normalize(name, al)
  {
    WordsAreWords(Lower(name, al));
    JoinIsCanonical(Words(Lower(name, al)));
    NormalizeJoinsWords(name, al);
    FixedPoints(Normalize(name, al), al);
  }

  /** A normalised name never holds the `|` that separates the fields of an id's preimage. */
  lemma WritesNoBar(al: Alphabet)
    requires Sound(al)
    ensures Deduplication.WritesNoBar((name: string) => Normalize(name, al))
  {
    forall name: string
      ensures Deduplication.BarFree(Normalize(name, al))
    {
      Idempotent(name, al);
    }
  }

  /** So the ids of a deduplicated dataset are hashes of pairwise distinct texts, with the real
      normalisation in place of an arbitrary one. */
  lemma IngestPreimagesAreDistinct(es: seq<Deduplication.Element>, al: Alphabet, fmt: real -> string,
                                   geo: Deduplication.Geometry, i: nat, j: nat)
    requires Sound(al) && Deduplication.WritesNoBar(fmt)
    requires var gyms := Deduplication.Bucketed(es, (name: string) => Normalize(name, al), geo);
             Deduplication.RoundingIsFine(gyms, fmt, geo) && i < j < |gyms|
    ensures var gyms := Deduplication.Bucketed(es, (name: string) => Normalize(name, al), geo);
            Deduplication.IdPreimage(gyms[i], fmt) != Deduplication.IdPreimage(gyms[j], fmt)
  {
    WritesNoBar(al);
    Deduplication.PreimagesAreDistinct(es, (name: string) => Normalize(name, al), fmt, geo, i, j);
  }

  /******* What is kept *******/

  // The letters and digits of a text, in order.
  function Letters(s: string): string {
    if s == [] then []
    else if 'a' <= s[0] <= 'z' || '0' <= s[0] <= '9' then [s[0]] + Letters(s[1..])
    else Letters(s[1..])
  }

  lemma {:induction false} LettersAppend(a: string, b: string)
    ensures Letters(a + b) == Letters(a) + Letters(b)
  {
    if a == [] {
      assert a + b == b;
    } else {
      assert (a + b)[1..] == a[1..] + b;
      LettersAppend(a[1..], b);
    }
  }

  lemma {:induction false} LettersOfWords(s: string)
    ensures Letters(Join(Words(s))) == Letters(s)
  {
    if s != [] {
      LettersOfWords(s[1..]);
      if IsWordChar(s[0]) {
        if |s| == 1 {
          assert s[1..] == [] && Words(s) == [[s[0]]];
        } else {
          WordStart(s);
          var rest := Words(s[1..]);
          var lead := if rest == [] then "" else Lead(s[1..]);
          LettersAppend([s[0]] + lead, Join(rest));
          LettersAppend([s[0]], lead);
        }
      }
    }
  }

  /** A normalised name holds the letters and digits of the lower-cased name, all of them and in
      order, and besides them only underscores. */
  lemma NormalizeKeepsLetters(name: string, al: Alphabet)
    requires Sound(al)
    ensures Letters(Normalize(name, al)) == Letters(Lower(name, al))
    ensures forall c :: c in Normalize(name, al) ==> 'a' <= c <= 'z' || '0' <= c <= '9' || c == '_'
  {
    NormalizeJoinsWords(name, al);
    LettersOfWords(Lower(name, al));
    Idempotent(name, al);
  }
}

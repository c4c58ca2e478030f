/** The music browser's catalogue query (`fetchMusic` in App.tsx): the search
    term built from the search box, the category and the language, and the
    removal of repeated tracks from the results. The request itself and the
    mapping of the response are not part of this model. */
module MusicSearch {

  // ---------------------------------------------------------------------------
  // String.prototype.trim

  /** The characters `trim` removes: the white space and line terminators
      of ECMAScript. Below 0x80 these are tab, line feed, vertical tab, form
      feed, carriage return (0x09 to 0x0D) and space. */
  predicate IsSpace(c: char) {
    var u := c as int;
    if u < 0x80 then 0x09 <= u <= 0x0D || u == 0x20 else WideSpace(u)
  }

  /** No-break space, the byte order mark, the other space separators, and
      the line and paragraph separators. */
  predicate WideSpace(u: int) {
    || u == 0xA0 || u == 0x1680 || (0x2000 <= u <= 0x200A) || u == 0x2028 || u == 0x2029
    || u == 0x202F || u == 0x205F || u == 0x3000 || u == 0xFEFF
  }

  predicate AllSpace(s: string) {
    forall i :: 0 <= i < |s| ==> IsSpace(s[i])
  }

  /** s ends with w. */
  predicate EndsWith(s: string, w: string) {
    |s| >= |w| && s[|s| - |w|..] == w
  }

  /** No white space at either end. */
  predicate Trimmed(s: string) {
    |s| == 0 || (!IsSpace(s[0]) && !IsSpace(s[|s| - 1]))
  }

  function TrimEnd(s: string): (r: string)
    ensures |r| <= |s| && r == s[..|r|] && AllSpace(s[|r|..])
    ensures |r| == 0 || !IsSpace(r[|r| - 1])
  {
    if |s| > 0 && IsSpace(s[|s| - 1]) then
      var r := TrimEnd(s[..|s| - 1]);
      assert s[..|s| - 1][..|r|] == s[..|r|];
      r
    else s
  }

  function TrimStart(s: string): (r: string)
    ensures |r| <= |s| && r == s[|s| - |r|..] && AllSpace(s[..|s| - |r|])
    ensures |r| == 0 || !IsSpace(r[0])
  {
    if |s| > 0 && IsSpace(s[0]) then
      var r := TrimStart(s[1..]);
      assert s[1..][|s| - 1 - |r|..] == s[|s| - |r|..];
      r
    else s
  }

  /** `s.trim()`: s with its leading and trailing white space removed. */
  function Trim(s: string): (r: string)
    ensures Trimmed(r) && |r| <= |s|
  {
    TrimStart(TrimEnd(s))
  }

  /** What trimming removes is white space only: the result is a slice of
      the input with nothing but white space on either side. */
  lemma TrimIsInfix(s: string)
    ensures exists i, j :: 0 <= i <= j <= |s| && Trim(s) == s[i..j] && AllSpace(s[..i]) && AllSpace(s[j..])
  {
    var e := TrimEnd(s);
    var r := TrimStart(e);
    var i, j := |e| - |r|, |e|;
    assert r == s[i..j] by {
      assert e == s[..j];
    }
    assert AllSpace(s[..i]) by {
      assert s[..i] == e[..i];
    }
    assert AllSpace(s[j..]);
    assert Trim(s) == r;
  }

  /** A string trims to nothing exactly when it is all white space. */
  lemma TrimEmpty(s: string)
    ensures Trim(s) == [] <==> AllSpace(s)
  {
    if AllSpace(s) {
      TrimIsInfix(s);
    }
  }

  /** White space after a non-blank string is all that trimming its end
      removes. */
  lemma {:induction false} TrimEndDropsTail(x: string, tail: string)
    requires |x| > 0 && !IsSpace(x[|x| - 1]) && AllSpace(tail)
    ensures TrimEnd(x + tail) == x
  {
    if |tail| == 0 {
      assert x + tail == x;
    } else {
      var init := tail[..|tail| - 1];
      assert (x + tail)[..|x + tail| - 1] == x + init;
      TrimEndDropsTail(x, init);
    }
  }

  /** Trimming the start of x followed by a word that starts non-blank
      trims x alone. */
  lemma {:induction false} TrimStartKeepsWord(x: string, w: string)
    requires |w| > 0 && !IsSpace(w[0])
    ensures TrimStart(x + w) == TrimStart(x) + w
  {
    if |x| == 0 {
      assert x + w == w;
    } else if IsSpace(x[0]) {
      assert (x + w)[1..] == x[1..] + w;
      TrimStartKeepsWord(x[1..], w);
    }
  }

  /** Trimming a string that ends in a trimmed word w followed by white
      space keeps w at the end. */
  lemma TrimKeepsLastWord(p: string, w: string, tail: string)
    requires |w| > 0 && Trimmed(w) && AllSpace(tail)
    ensures Trim(p + w + tail) == TrimStart(p) + w
  {
    TrimEndDropsTail(p + w, tail);
    TrimStartKeepsWord(p, w);
  }

  // ---------------------------------------------------------------------------
  // The search term

  /** The phrase searched for "Movie Songs" in a language. */
  function MoviePhrase(language: string): string {
    if language == "Malayalam" then "Malayalam movie songs"
    else if language == "Hindi" then "Bollywood songs"
    else if language == "Tamil" then "Tamil movie songs"
    else if language == "Telugu" then "Telugu movie songs"
    else "Film soundtracks"
  }

  /** The words a category contributes, each followed by a space; for
      "Movie Songs" they depend on the language. */
  function CategoryWords(category: string, language: string): (w: string)
    ensures w == [] <==> category == "All"
    ensures w == [] || w[|w| - 1] == ' '
  {
    if category == "Movie Songs" then MoviePhrase(language) + " "
    else if category == "Mappila Songs" then "Mappila songs "
    else if category == "Malayalam Album" then "Malayalam album songs "
    else if category != "All" then category + " "
    else ""
  }

  /** The term before the fallback and the final trim: the search text and
      a space, the category's words, and the language and a space unless the
      language is "All" or the category already names it. */
  function RawTerm(search: string, category: string, language: string): (r: string)
    ensures |r| == 0 || r[|r| - 1] == ' '
    ensures r == [] <==> |search| == 0 && category == "All" && language == "All"
    ensures |search| > 0 ==> |r| > |search| && r[..|search| + 1] == search + " "
    ensures language != "All" && category != "Movie Songs" ==>
      |r| > |language| && r[|r| - |language| - 1..] == language + " "
    ensures !(language != "All" && category != "Movie Songs") ==>
      r == (if |search| > 0 then search + " " else "") + CategoryWords(category, language)
  {
    var lead := if |search| > 0 then search + " " else "";
    var lang := if language != "All" && category != "Movie Songs" then language + " " else "";
    lead + CategoryWords(category, language) + lang
  }

  const Fallback: string := "Top hits india "

  /** The fallback trims to "Top hits india". */
  lemma FallbackTrims()
    ensures Trim(Fallback) == "Top hits india"
  {
    var f := Fallback;
    assert !IsSpace(f[|f| - 2]) && IsSpace(f[|f| - 1]);
    assert TrimEnd(f[..|f| - 1]) == f[..|f| - 1];
    assert TrimEnd(f) == f[..|f| - 1];
    assert !IsSpace(f[0]);
  }

  /** `(raw || "Top hits india ").trim()` after the raw term is checked
      for being blank. */
  function TermFrom(raw: string): (term: string)
    ensures |term| > 0 && Trimmed(term)
    ensures AllSpace(raw) ==> term == "Top hits india"
    ensures !AllSpace(raw) ==> term == Trim(raw)
  {
    TrimEmpty(raw);
    FallbackTrims();
    if Trim(raw) == [] then Trim(Fallback) else Trim(raw)
  }

  /** The term sent to the catalogue: the raw term, or "Top hits india" when
      that is blank, trimmed. */
  function SearchTerm(search: string, category: string, language: string): (term: string)
    ensures |term| > 0 && Trimmed(term)
  {
    TermFrom(RawTerm(search, category, language))
  }

  /** With nothing searched and both filters at "All" the term is the
      fallback. */
  lemma DefaultTerm()
    ensures SearchTerm("", "All", "All") == "Top hits india"
  {
    assert RawTerm("", "All", "All") == "";
  }

  /** A raw term that ends in a trimmed word and one space yields a term
      that ends in that word. */
  lemma TermEndsWithWord(raw: string, lead: string, w: string)
    requires raw == lead + w + " "
    requires |w| > 0 && Trimmed(w)
    ensures EndsWith(TermFrom(raw), w)
  {
    assert !AllSpace(raw) by {
      assert raw[|lead|] == w[0];
    }
    assert Trim(raw) == TrimStart(lead) + w by {
      TrimKeepsLastWord(lead, w, " ");
    }
    var term := TrimStart(lead) + w;
    assert term[|term| - |w|..] == w;
  }

  /** A language other than "All" is appended, and ends the term, unless
      the category is "Movie Songs". */
  lemma LanguageEndsTerm(search: string, category: string, language: string)
    requires language != "All" && category != "Movie Songs"
    requires |language| > 0 && Trimmed(language)
    ensures EndsWith(SearchTerm(search, category, language), language)
  {
    var raw := RawTerm(search, category, language);
    var k := |raw| - |language| - 1;
    assert raw == raw[..k] + (language + " ");
    TermEndsWithWord(raw, raw[..k], language);
  }

  /** Every "Movie Songs" phrase is non-empty and trimmed. */
  lemma MoviePhraseTrimmed(language: string)
    ensures |MoviePhrase(language)| > 0 && Trimmed(MoviePhrase(language))
  {
    var p := MoviePhrase(language);
    assert p[0] as int < 0x80 && p[0] != ' ';
    assert p[|p| - 1] == 's';
  }

  /** For "Movie Songs" the language is never appended on its own: the term
      ends with that language's phrase. */
  lemma MovieSongsTerm(search: string, language: string)
    ensures EndsWith(SearchTerm(search, "Movie Songs", language), MoviePhrase(language))
  {
    var lead := if |search| > 0 then search + " " else "";
    var phrase := MoviePhrase(language);
    var raw := RawTerm(search, "Movie Songs", language);
    assert raw == lead + phrase + " ";
    MoviePhraseTrimmed(language);
    TermEndsWithWord(raw, lead, phrase);
  }

  // ---------------------------------------------------------------------------
  // Removing repeated tracks

  /** A catalogue entry as the browser keeps it; only the id matters here. */
  datatype Track = Track(id: string, title: string, artist: string, audioUrl: string)

  /** `self.findIndex(t => t.id === id)`: the first position holding id,
      or -1. */
  function FindIndex(s: seq<Track>, id: string): (r: int)
    ensures -1 <= r < |s|
    ensures r >= 0 ==> s[r].id == id && forall i :: 0 <= i < r ==> s[i].id != id
    ensures r < 0 ==> forall i :: 0 <= i < |s| ==> s[i].id != id
  {
    if |s| == 0 then -1
    else if s[0].id == id then 0
    else
      var k := FindIndex(s[1..], id);
      if k < 0 then -1 else k + 1
  }

  /** The ids occurring in s. */
  function Ids(s: seq<Track>): set<string> {
    if |s| == 0 then {} else Ids(s[..|s| - 1]) + {s[|s| - 1].id}
  }

  lemma {:induction false} IdsMember(s: seq<Track>, id: string)
    ensures id in Ids(s) <==> exists i :: 0 <= i < |s| && s[i].id == id
  {
    if |s| > 0 {
      var init := s[..|s| - 1];
      IdsMember(init, id);
      if id in Ids(init) {
        var i :| 0 <= i < |init| && init[i].id == id;
        assert s[i].id == id;
      }
      if exists i :: 0 <= i < |s| && s[i].id == id {
        var i :| 0 <= i < |s| && s[i].id == id;
        if i < |s| - 1 {
          assert init[i].id == id;
        }
      }
    }
  }

  /** An id occurs among the first n tracks exactly when its first
      occurrence is one of them. */
  lemma FirstInPrefix(s: seq<Track>, n: nat, id: string)
    requires n <= |s|
    ensures id in Ids(s[..n]) <==> 0 <= FindIndex(s, id) < n
  {
    IdsMember(s[..n], id);
    var k := FindIndex(s, id);
    if 0 <= k < n {
      assert s[..n][k].id == id;
    }
  }

  /** Ids are pairwise different. */
  predicate DistinctIds(s: seq<Track>) {
    forall i, j :: 0 <= i < j < |s| ==> s[i].id != s[j].id
  }

  /** The source's filter over the first n tracks of self: a track is kept
      when its position is the first position of its id. */
  function KeepFirst(self: seq<Track>, n: nat): (r: seq<Track>)
    requires n <= |self|
    ensures |r| <= n
    ensures forall i :: 0 <= i < |r| ==>
      0 <= FindIndex(self, r[i].id) < n && r[i] == self[FindIndex(self, r[i].id)]
    ensures forall i, j :: 0 <= i < j < |r| ==> FindIndex(self, r[i].id) < FindIndex(self, r[j].id)
    ensures DistinctIds(r)
  {
    if n == 0 then []
    else
      var rest := KeepFirst(self, n - 1);
      if n - 1 == FindIndex(self, self[n - 1].id) then rest + [self[n - 1]] else rest
  }

  /** `mappedTracks.filter((track, index, self) =>
      index === self.findIndex(t => t.id === track.id))`. */
  function Dedup(tracks: seq<Track>): (r: seq<Track>)
    ensures DistinctIds(r) && |r| <= |tracks|
  {
    KeepFirst(tracks, |tracks|)
  }

  lemma IdsSnoc(a: seq<Track>, x: Track)
    ensures Ids(a + [x]) == Ids(a) + {x.id}
  {
    assert (a + [x])[..|a|] == a;
  }

  /** The ids of a prefix grow by the id of the next track. */
  lemma IdsOfLongerPrefix(self: seq<Track>, n: nat)
    requires 0 < n <= |self|
    ensures Ids(self[..n]) == Ids(self[..n - 1]) + {self[n - 1].id}
  {
    assert self[..n] == self[..n - 1] + [self[n - 1]];
    IdsSnoc(self[..n - 1], self[n - 1]);
  }

  /** One step of the filter keeps the ids of the prefix. */
  lemma KeepFirstIdsStep(self: seq<Track>, n: nat)
    requires 0 < n <= |self|
    requires Ids(KeepFirst(self, n - 1)) == Ids(self[..n - 1])
    ensures Ids(KeepFirst(self, n)) == Ids(self[..n])
  {
    var x := self[n - 1];
    IdsOfLongerPrefix(self, n);
    if n - 1 == FindIndex(self, x.id) {
      IdsSnoc(KeepFirst(self, n - 1), x);
    } else {
      FirstInPrefix(self, n - 1, x.id);
    }
  }

  /** Filtering keeps every id of the prefix: no id is lost. */
  lemma {:induction false} KeepFirstIds(self: seq<Track>, n: nat)
    requires n <= |self|
    ensures Ids(KeepFirst(self, n)) == Ids(self[..n])
  {
    if n > 0 {
      KeepFirstIds(self, n - 1);
      KeepFirstIdsStep(self, n);
    }
  }

  /** The result holds each id of the input exactly once, each as its
      first occurrence, in the order of first occurrence. */
  lemma DedupSpec(tracks: seq<Track>)
    ensures var r := Dedup(tracks);
      && DistinctIds(r)
      && Ids(r) == Ids(tracks)
      && (forall i :: 0 <= i < |r| ==> 0 <= FindIndex(tracks, r[i].id) && r[i] == tracks[FindIndex(tracks, r[i].id)])
      && (forall i, j :: 0 <= i < j < |r| ==> FindIndex(tracks, r[i].id) < FindIndex(tracks, r[j].id))
  {
    KeepFirstIds(tracks, |tracks|);
    assert tracks[..|tracks|] == tracks;
  }

  /** A list without repeated ids passes the filter unchanged. */
  lemma {:induction false} KeepFirstDistinct(self: seq<Track>, n: nat)
    requires n <= |self| && DistinctIds(self)
    ensures KeepFirst(self, n) == self[..n]
  {
    if n > 0 {
      KeepFirstDistinct(self, n - 1);
      assert FindIndex(self, self[n - 1].id) == n - 1;
      assert self[..n - 1] + [self[n - 1]] == self[..n];
    }
  }

  /** Removing repeats twice removes nothing more. */
  lemma DedupIdempotent(tracks: seq<Track>)
    ensures Dedup(Dedup(tracks)) == Dedup(tracks)
  {
    var r := Dedup(tracks);
    KeepFirstDistinct(r, |r|);
    assert r[..|r|] == r;
  }

  /** The same filter written with a set of ids already seen: a track is
      kept when its id has not been seen. */
  method DedupWithSeen(tracks: seq<Track>) returns (out: seq<Track>)
    ensures out == Dedup(tracks)
  {
    var seen: set<string> := {};
    out := [];
    var i := 0;
    while i < |tracks|
      invariant 0 <= i <= |tracks|
      invariant out == KeepFirst(tracks, i)
      invariant seen == Ids(tracks[..i])
    {
      var t := tracks[i];
      FirstInPrefix(tracks, i, t.id);
      if t.id !in seen {
        out := out + [t];
        seen := seen + {t.id};
      }
      assert tracks[..i + 1][..i] == tracks[..i];
      i := i + 1;
    }
  }
}

/**
 * `QueryStringHelper`: stripping the query component (section 3.4 of
 * RFC 3986) from a URL, and parsing `k=v&k2=v2` into a dictionary with
 * unescaped values.
 *
 * A null URL is `None`. The exceptions `GetKeyValuePairs` lets escape are
 * `Failure`s: a piece without '=' indexes past the end of its split
 * (`IndexOutOfRangeException`), and a repeated key makes `ToDictionary`
 * throw (`ArgumentException`). A repeated key never overwrites.
 */
module QueryStringHelper {
  import opened Wrappers
  import opened Text
  import PercentEncoding

  /** The exceptions `GetKeyValuePairs` can throw. */
  datatype QueryError =
    | MissingValue(piece: string)  // `p[1]` on a piece with no '='
    | DuplicateKey(key: string)    // `ToDictionary` meeting a key twice

  /** Everything before the first '?', or the whole URL when it has none. */
  function RemovePossibleQueryString(url: Option<string>): (r: string)
    ensures url.None? || url.value == [] ==> r == []
    ensures StartsWith(url.GetOr([]), r)
    ensures '?' !in r
    ensures url.Some? && |r| < |url.value| ==> url.value[|r|] == '?'
  {
    if url.None? || url.value == [] then []
    else
      var i := IndexOf(url.value, '?');
      if i == -1 then url.value else url.value[..i]
  }

  /** A URL without '?' comes back unchanged. */
  lemma RemoveWithoutQuery(url: string)
    requires '?' !in url
    ensures RemovePossibleQueryString(Some(url)) == url
  {
  }

  /** Stripping twice is stripping once. */
  lemma RemoveIdempotent(url: Option<string>)
    ensures var once := RemovePossibleQueryString(url);
            RemovePossibleQueryString(Some(once)) == once
  {
  }

  /** The text `GetKeyValuePairs` parses: everything after the first '?' (found ordinally), or the whole URL. */
  function QueryOf(url: string): (q: string)
    ensures '?' !in url ==> q == url
    ensures '?' in url ==> url == RemovePossibleQueryString(Some(url)) + "?" + q
  {
    url[IndexOf(url, '?') + 1..]
  }

  /** The key of a `k=v` piece: segment 0 of its split on '='. */
  function KeyOf(piece: string): string {
    Split(piece, '=')[0]
  }

  /** A split on '=' has a second segment exactly when the piece contains '='. */
  lemma SplitHasValue(piece: string)
    ensures |Split(piece, '=')| >= 2 <==> '=' in piece
  {
  }

  /** The value of a `k=v` piece: segment 1 unescaped; text after a second '=' is dropped. */
  function ValueOf(piece: string): string
    requires '=' in piece
  {
    SplitHasValue(piece);
    PercentEncoding.UnescapeDataString(Split(piece, '=')[1])
  }

  /** What `ToDictionary` needs to succeed: every piece has a value and no key repeats. */
  predicate WellFormed(pieces: seq<string>) {
    && (forall i :: 0 <= i < |pieces| ==> '=' in pieces[i])
    && (forall i, j :: 0 <= i < j < |pieces| ==> KeyOf(pieces[i]) != KeyOf(pieces[j]))
  }

  /** The `Select(...).ToDictionary(...)` fold over the '&'-pieces, in order. */
  function ParsePairs(pieces: seq<string>): Result<map<string, string>, QueryError>
    decreases |pieces|
  {
    if |pieces| == 0 then Success(map[])
    else
      var last := pieces[|pieces| - 1];
      var prior :- ParsePairs(pieces[..|pieces| - 1]);
      if '=' !in last then Failure(MissingValue(last))
      else if KeyOf(last) in prior then Failure(DuplicateKey(KeyOf(last)))
      else Success(prior[KeyOf(last) := ValueOf(last)])
  }

  /** The keys of the pieces. */
  function Keys(pieces: seq<string>): set<string> {
    set i | 0 <= i < |pieces| :: KeyOf(pieces[i])
  }

  lemma KeysSnoc(init: seq<string>, last: string)
    ensures Keys(init + [last]) == Keys(init) + {KeyOf(last)}
  {
    var pieces := init + [last];
    assert KeyOf(pieces[|init|]) == KeyOf(last);
    forall k | k in Keys(init) ensures k in Keys(pieces) {
      var i :| 0 <= i < |init| && KeyOf(init[i]) == k;
      assert pieces[i] == init[i];
    }
    forall k | k in Keys(pieces) ensures k in Keys(init) + {KeyOf(last)} {
      var i :| 0 <= i < |pieces| && KeyOf(pieces[i]) == k;
      if i < |init| {
        assert pieces[i] == init[i];
      }
    }
  }

  lemma WellFormedSnoc(init: seq<string>, last: string)
    ensures WellFormed(init + [last]) <==>
              WellFormed(init) && '=' in last && KeyOf(last) !in Keys(init)
  {
    var pieces := init + [last];
    assert forall i :: 0 <= i < |init| ==> pieces[i] == init[i];
    assert pieces[|init|] == last;
    if KeyOf(last) in Keys(init) {
      var i :| 0 <= i < |init| && KeyOf(init[i]) == KeyOf(last);
      assert KeyOf(pieces[i]) == KeyOf(pieces[|init|]);
    }
  }

  /** A successful parse holds exactly the pieces' keys. */
  lemma {:induction false} ParsePairsKeys(pieces: seq<string>)
    ensures ParsePairs(pieces).Success? ==> ParsePairs(pieces).value.Keys == Keys(pieces)
    decreases |pieces|
  {
    if |pieces| > 0 {
      var init, last := pieces[..|pieces| - 1], pieces[|pieces| - 1];
      assert pieces == init + [last];
      ParsePairsKeys(init);
      KeysSnoc(init, last);
    }
  }

  /** A successful parse maps each piece's key to that piece's unescaped value. */
  lemma {:induction false} ParsePairsValues(pieces: seq<string>)
    requires ParsePairs(pieces).Success?
    ensures forall i :: 0 <= i < |pieces| ==>
              && '=' in pieces[i]
              && KeyOf(pieces[i]) in ParsePairs(pieces).value
              && ParsePairs(pieces).value[KeyOf(pieces[i])] == ValueOf(pieces[i])
    decreases |pieces|
  {
    if |pieces| > 0 {
      var init, last := pieces[..|pieces| - 1], pieces[|pieces| - 1];
      ParsePairsValues(init);
      var prior := ParsePairs(init).value;
      var r := ParsePairs(pieces).value;
      assert '=' in last && KeyOf(last) !in prior && r == prior[KeyOf(last) := ValueOf(last)];
      forall i | 0 <= i < |pieces|
        ensures '=' in pieces[i] && KeyOf(pieces[i]) in r && r[KeyOf(pieces[i])] == ValueOf(pieces[i])
      {
        if i < |init| {
          assert pieces[i] == init[i];
        }
      }
    }
  }

  /** `ToDictionary` succeeds exactly when every piece has a '=' and no key repeats. */
  lemma {:induction false} ParsePairsSucceedsIff(pieces: seq<string>)
    ensures ParsePairs(pieces).Success? <==> WellFormed(pieces)
    decreases |pieces|
  {
    if |pieces| > 0 {
      var init, last := pieces[..|pieces| - 1], pieces[|pieces| - 1];
      assert pieces == init + [last];
      ParsePairsSucceedsIff(init);
      ParsePairsKeys(init);
      WellFormedSnoc(init, last);
    }
  }

  /** A failure names a piece without '=' or a key that two pieces share. */
  lemma {:induction false} ParsePairsFailure(pieces: seq<string>)
    ensures var r := ParsePairs(pieces);
            && (r.Failure? && r.error.MissingValue? ==> r.error.piece in pieces && '=' !in r.error.piece)
            && (r.Failure? && r.error.DuplicateKey? ==> r.error.key in Keys(pieces))
    decreases |pieces|
  {
    if |pieces| > 0 {
      var init, last := pieces[..|pieces| - 1], pieces[|pieces| - 1];
      assert pieces == init + [last];
      ParsePairsFailure(init);
      ParsePairsKeys(init);
      KeysSnoc(init, last);
    }
  }

  /** `GetKeyValuePairs`. */
  function GetKeyValuePairs(url: Option<string>): (r: Result<map<string, string>, QueryError>)
    ensures url.None? || url.value == [] ==> r == Success(map[])
    ensures url.Some? && IsEmptyOrWhiteSpace(QueryOf(url.value)) ==> r == Success(map[])
  {
    if url.None? || url.value == [] then Success(map[])
    else
      var query := QueryOf(url.value);
      if IsEmptyOrWhiteSpace(query) then Success(map[])
      else ParsePairs(Split(query, '&'))
  }

  /**
   * For a URL whose query is not blank: parsing succeeds exactly when every
   * '&'-piece has a '=' and no key repeats, and then the dictionary holds
   * exactly the pieces' keys, each with its piece's unescaped value.
   */
  lemma GetKeyValuePairsSpec(url: string)
    requires !IsEmptyOrWhiteSpace(QueryOf(url))
    ensures var pieces := Split(QueryOf(url), '&');
            var r := GetKeyValuePairs(Some(url));
            && (r.Success? <==> WellFormed(pieces))
            && (r.Success? ==> r.value.Keys == Keys(pieces))
            && (r.Success? ==> forall i :: 0 <= i < |pieces| ==> r.value[KeyOf(pieces[i])] == ValueOf(pieces[i]))
  {
    assert url != [];
    var pieces := Split(QueryOf(url), '&');
    ParsePairsSucceedsIff(pieces);
    ParsePairsKeys(pieces);
    if ParsePairs(pieces).Success? {
      ParsePairsValues(pieces);
    }
  }

  /** With no '?' the whole URL is taken as the query. */
  lemma NoQuestionMarkParsesWholeUrl(url: string)
    requires '?' !in url && !IsEmptyOrWhiteSpace(url)
    ensures GetKeyValuePairs(Some(url)) == ParsePairs(Split(url, '&'))
  {
  }

  /** `a + [c] + b` with no `c` in either part splits into exactly `[a, b]`. */
  lemma SplitPair(a: string, c: char, b: string)
    requires c !in a && c !in b
    ensures Split(a + [c] + b, c) == [a, b]
  {
    SplitCons(a, c, b);
    SplitWithout(b, c);
  }

  /** After a leading '?', the query is everything else. */
  lemma QueryAfterMark(q: string)
    ensures QueryOf("?" + q) == q
  {
    assert ("?" + q)[0] == '?';
  }

  /** After a '?'-free prefix and a '?', the query is everything else. */
  lemma QueryAfterFirstMark(prefix: string, q: string)
    requires '?' !in prefix
    ensures QueryOf(prefix + "?" + q) == q
  {
    var url := prefix + "?" + q;
    assert url[|prefix|] == '?';
    assert url[..|prefix|] == prefix;
    assert url[|prefix| + 1..] == q;
  }

  /** Two '&'-pieces with the same key make the parse fail: a repeated key never overwrites. */
  lemma DuplicateKeyFails(p1: string, p2: string)
    requires '&' !in p1 && '&' !in p2 && '=' in p1 && '=' in p2
    requires KeyOf(p1) == KeyOf(p2)
    ensures GetKeyValuePairs(Some("?" + p1 + "&" + p2)).Failure?
  {
    var q := p1 + "&" + p2;
    assert "?" + p1 + "&" + p2 == "?" + q;
    QueryAfterMark(q);
    assert !IsEmptyOrWhiteSpace(q) by {
      assert q[|p1|] == '&';
    }
    SplitPair(p1, '&', p2);
    assert GetKeyValuePairs(Some("?" + q)) == ParsePairs([p1, p2]);
    assert !WellFormed([p1, p2]) by {
      assert KeyOf([p1, p2][0]) == KeyOf([p1, p2][1]);
    }
    ParsePairsSucceedsIff([p1, p2]);
  }

  /** A piece with no '=' is an error. */
  lemma PieceWithoutValueFails(piece: string)
    requires '=' !in piece && '&' !in piece && '?' !in piece && !IsEmptyOrWhiteSpace(piece)
    ensures GetKeyValuePairs(Some(piece)) == Failure(MissingValue(piece))
  {
    assert QueryOf(piece) == piece;
    SplitWithout(piece, '&');
    assert [piece][..0] == [];
    assert ParsePairs([]) == Success(map[]);
  }
}

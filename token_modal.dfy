/**
 * The token picker: its search filter over the token list and the guard
 * that decides, on a click, whether the clicked currency is passed on to
 * the form. Both are pure; the picker's own `searchTerm` state is a
 * parameter here.
 */
module TokenModal {
  import opened JsValues
  import opened Seqs

  /** One entry of the price feed, as kept by the form. */
  datatype Token = Token(currency: string, price: Option<real>)

  /** Which of the form's two token fields the picker was opened for. */
  datatype Side = From | To

  /** `String.prototype.toLowerCase` on one character (ASCII letters). */
  function LowerChar(c: char): (r: char)
    ensures 'A' <= c <= 'Z' ==> r as int == c as int + 32
    ensures !('A' <= c <= 'Z') ==> r == c
    ensures !('A' <= r <= 'Z')
  {
    if 'A' <= c <= 'Z' then (c as int + 32) as char else c
  }

  function ToLower(s: string): (r: string)
    ensures |r| == |s|
    ensures forall i :: 0 <= i < |s| ==> r[i] == LowerChar(s[i])
  {
    if s == [] then [] else [LowerChar(s[0])] + ToLower(s[1..])
  }

  /** `needle` occurs in `hay` starting at position `i`. */
  ghost predicate OccursAt(hay: string, needle: string, i: int) {
    0 <= i && i + |needle| <= |hay| && hay[i..i + |needle|] == needle
  }

  /** `hay.includes(needle)`, computed by trying each start position. */
  predicate Includes(hay: string, needle: string)
    decreases |hay|
  {
    needle <= hay || (hay != [] && Includes(hay[1..], needle))
  }

  /** An occurrence at the start is a prefix. */
  lemma OccursAtStart(hay: string, needle: string)
    ensures OccursAt(hay, needle, 0) <==> needle <= hay
  {
    if |needle| <= |hay| {
      assert hay[0..|needle|] == hay[..|needle|];
    }
  }

  /** An occurrence after the first position is an occurrence in the tail,
      one position earlier. */
  lemma OccursInTail(hay: string, needle: string, i: int)
    requires hay != [] && i > 0
    ensures OccursAt(hay, needle, i) <==> OccursAt(hay[1..], needle, i - 1)
  {
    if i + |needle| <= |hay| {
      assert hay[1..][i - 1..i - 1 + |needle|] == hay[i..i + |needle|];
    }
  }

  /** `includes` holds exactly when the needle occurs at some position. */
  lemma {:induction false} IncludesIffOccurs(hay: string, needle: string)
    ensures Includes(hay, needle) ==> exists i :: OccursAt(hay, needle, i)
    ensures (exists i :: OccursAt(hay, needle, i)) ==> Includes(hay, needle)
    decreases |hay|
  {
    if needle <= hay {
      OccursAtStart(hay, needle);
    } else if hay == [] {
      forall i | OccursAt(hay, needle, i) ensures false {
        OccursAtStart(hay, needle);
      }
    } else {
      IncludesIffOccurs(hay[1..], needle);
      if Includes(hay[1..], needle) {
        var i :| OccursAt(hay[1..], needle, i);
        OccursInTail(hay, needle, i + 1);
      } else {
        forall i | OccursAt(hay, needle, i) ensures false {
          if i == 0 {
            OccursAtStart(hay, needle);
          } else {
            OccursInTail(hay, needle, i);
          }
        }
      }
    }
  }

  /** The search test applied to one token. */
  predicate Matches(t: Token, searchTerm: string) {
    Includes(ToLower(t.currency), ToLower(searchTerm))
  }

  /** The picker's `filteredTokens`: the tokens whose lower-cased currency
      contains the lower-cased search term, in list order. */
  function FilteredTokens(tokens: seq<Token>, searchTerm: string): (r: seq<Token>)
    ensures IsSubsequence(r, tokens)
    ensures forall t :: t in r ==> Matches(t, searchTerm)
    ensures forall i :: 0 <= i < |tokens| && Matches(tokens[i], searchTerm) ==> tokens[i] in r
    ensures forall t :: t in tokens ==>
              multiset(r)[t] == if Matches(t, searchTerm) then multiset(tokens)[t] else 0
  {
    KeepCounts(tokens, t => Matches(t, searchTerm));
    Keep(tokens, t => Matches(t, searchTerm))
  }

  /** Membership in the filtered list, stated with the position-based
      meaning of "contains": a token is listed exactly when it is in the
      list and the lower-cased term occurs somewhere in its lower-cased
      currency. */
  lemma FilteredIffOccurs(tokens: seq<Token>, searchTerm: string, t: Token)
    ensures t in FilteredTokens(tokens, searchTerm) ==>
              t in tokens && exists i :: OccursAt(ToLower(t.currency), ToLower(searchTerm), i)
    ensures (t in tokens && exists i :: OccursAt(ToLower(t.currency), ToLower(searchTerm), i)) ==>
              t in FilteredTokens(tokens, searchTerm)
  {
    IncludesIffOccurs(ToLower(t.currency), ToLower(searchTerm));
    if t in tokens && Matches(t, searchTerm) {
      var j :| 0 <= j < |tokens| && tokens[j] == t;
    }
  }

  /** Every string, lower-cased or not, includes the empty string. */
  lemma IncludesEmpty(hay: string)
    ensures Includes(hay, "")
  {
    assert [] <= hay;
  }

  /** With an empty search box the picker lists every token. */
  lemma EmptySearchKeepsAll(tokens: seq<Token>)
    ensures FilteredTokens(tokens, "") == tokens
  {
    forall i | 0 <= i < |tokens| ensures Matches(tokens[i], "") {
      IncludesEmpty(ToLower(tokens[i].currency));
    }
  }

  /** The search is case-insensitive: a token whose currency spells the
      search term in other letter case is listed. */
  lemma {:induction false} SearchIgnoresCase(tokens: seq<Token>, searchTerm: string, i: int)
    requires 0 <= i < |tokens|
    requires ToLower(tokens[i].currency) == ToLower(searchTerm)
    ensures tokens[i] in FilteredTokens(tokens, searchTerm)
  {
    assert ToLower(searchTerm) <= ToLower(tokens[i].currency);
  }

  /** What a click in the picker does: the currency passed to
      `onSelectToken` (if any), and whether `onClose` is called. */
  datatype Click = Click(selected: Option<string>, close: bool)

  /** The picker's `handleSelect`: a click on the currency already chosen
      on the other side is swallowed; any other click is forwarded. The
      picker is closed either way. */
  function HandleSelect(side: Side, currency: string, selectedFrom: string, selectedTo: string): (r: Click)
    ensures r.close
    ensures r.selected.None? <==>
              (side == From && currency == selectedTo) || (side == To && currency == selectedFrom)
    ensures r.selected.Some? ==> r.selected.value == currency
  {
    if (side == From && currency == selectedTo) || (side == To && currency == selectedFrom) then
      Click(None, true)
    else
      Click(Some(currency), true)
  }
}

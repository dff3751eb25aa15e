/**
  The prompt enhancer: given the last image prompt and the user's request, it
  appends a descriptor phrase for every keyword of a fixed, ordered table that
  the lower-cased request contains, or the raw request when none does.
 */
module Enhancer {
  import opened Js

  /** The phrase shared by the two colour entries. */
  const ColorPhrase: string := "vibrant colors, rainbow colors, bright and saturated"

  /** The keyword table, in the order its entries are visited. */
  const Modifications: seq<(string, string)> := [
    ("colorful", ColorPhrase),
    ("more colorful", ColorPhrase),
    ("darker", "dark atmosphere, moody lighting, shadows"),
    ("brighter", "bright lighting, sunny, illuminated"),
    ("realistic", "photorealistic, high detail, professional photography"),
    ("artistic", "artistic style, creative, digital art"),
    ("cartoon", "cartoon style, animated, colorful illustration"),
    ("detailed", "highly detailed, intricate details, fine details")
  ]

  /** What one table entry contributes: its phrase after a comma when the
      lower-cased request contains its keyword, nothing otherwise. */
  function Piece(lower: string, entry: (string, string)): (r: string)
    ensures r == [] <==> !Includes(lower, entry.0)
    ensures r != [] ==> StartsWith(r, ", ")
  {
    if Includes(lower, entry.0) then ", " + entry.1 else ""
  }

  /** The pieces of all entries of `table`, in table order. */
  function Enhancement(lower: string, table: seq<(string, string)>): string {
    if table == [] then "" else Piece(lower, table[0]) + Enhancement(lower, table[1..])
  }

  /** The enhanced prompt: with no original prompt, the fallback; otherwise the
      original followed by the table's pieces, or by the request itself when
      no keyword matched. */
  function EnhancedPrompt(original: Option<string>, modification: string, fallback: string): (r: string)
    ensures !Truthy(original) ==> r == fallback
    ensures Truthy(original) ==> StartsWith(r, original.value) && |r| > |original.value|
  {
    if !Truthy(original) then fallback
    else
      var enhancement := Enhancement(ToLowerCase(modification), Modifications);
      original.value + (if enhancement == "" then ", " + modification else enhancement)
  }

  /** Visiting one more entry appends that entry's piece. */
  lemma {:induction false} EnhancementSnoc(lower: string, table: seq<(string, string)>, entry: (string, string))
    ensures Enhancement(lower, table + [entry]) == Enhancement(lower, table) + Piece(lower, entry)
  {
    if table == [] {
      assert [] + [entry] == [entry];
    } else {
      assert (table + [entry])[1..] == table[1..] + [entry];
      EnhancementSnoc(lower, table[1..], entry);
    }
  }

  /** `enhanceImagePrompt(originalPrompt, userModification, userMessage)`. */
  method EnhanceImagePrompt(originalPrompt: Option<string>, userModification: string, userMessage: string)
    returns (r: string)
    ensures r == EnhancedPrompt(originalPrompt, userModification, userMessage)
  {
    if !Truthy(originalPrompt) {
      return userMessage;
    }
    var enhancement := "";
    var lowerMessage := ToLowerCase(userModification);
    for k := 0 to |Modifications|
      invariant enhancement == Enhancement(lowerMessage, Modifications[..k])
    {
      var (key, value) := Modifications[k];
      if Includes(lowerMessage, key) {
        enhancement := enhancement + ", " + value;
      }
      EnhancementSnoc(lowerMessage, Modifications[..k], Modifications[k]);
      assert Modifications[..k + 1] == Modifications[..k] + [Modifications[k]];
    }
    assert Modifications[..|Modifications|] == Modifications;
    if enhancement == "" {
      enhancement := ", " + userModification;
    }
    r := originalPrompt.value + enhancement;
  }

  // ---------------------------------------------------------------------------
  // Properties

  /** The table adds nothing exactly when the request contains none of its keywords. */
  lemma {:induction false} EnhancementEmptyIff(lower: string, table: seq<(string, string)>)
    ensures Enhancement(lower, table) == "" <==> forall i :: 0 <= i < |table| ==> !Includes(lower, table[i].0)
  {
    if table != [] {
      EnhancementEmptyIff(lower, table[1..]);
      assert forall i :: 1 <= i < |table| ==> table[i] == table[1..][i - 1];
    }
  }

  /** When the request contains some keyword, the original is followed by
      the table's pieces and the request itself is not appended. */
  lemma EnhancedWithKeyword(original: string, modification: string, fallback: string, i: nat)
    requires original != "" && i < |Modifications|
    requires Includes(ToLowerCase(modification), Modifications[i].0)
    ensures EnhancedPrompt(Some(original), modification, fallback)
         == original + Enhancement(ToLowerCase(modification), Modifications)
  {
    EnhancementEmptyIff(ToLowerCase(modification), Modifications);
  }

  /** When the request contains no keyword, the request is appended as typed,
      in its original case. */
  lemma EnhancedWithoutKeyword(original: string, modification: string, fallback: string)
    requires original != ""
    requires forall i :: 0 <= i < |Modifications| ==> !Includes(ToLowerCase(modification), Modifications[i].0)
    ensures EnhancedPrompt(Some(original), modification, fallback) == original + ", " + modification
  {
    EnhancementEmptyIff(ToLowerCase(modification), Modifications);
  }

  /** A keyword holding a character the request lacks is not contained in it. */
  lemma NotIncludedWithoutChar(s: string, t: string, c: char)
    requires c in t && c !in s
    ensures !Includes(s, t)
  {
    var j :| 0 <= j < |t| && t[j] == c;
    forall k | 0 <= k <= |s|
      ensures !OccursAt(s, t, k)
    {
      if k + |t| <= |s| {
        assert s[k..k + |t|][j] == s[k + j];
      }
    }
  }

  /** The pieces of a table whose first two keywords are contained and no other. */
  lemma {:induction false} FirstTwoPieces(lower: string, table: seq<(string, string)>)
    requires |table| >= 2 && Includes(lower, table[0].0) && Includes(lower, table[1].0)
    requires forall i :: 2 <= i < |table| ==> !Includes(lower, table[i].0)
    ensures Enhancement(lower, table) == ", " + table[0].1 + ", " + table[1].1
  {
    var rest := table[2..];
    assert forall i :: 0 <= i < |rest| ==> rest[i] == table[i + 2];
    EnhancementEmptyIff(lower, rest);
    assert table[1..][1..] == rest;
  }

  /** `more colorful` contains `colorful`: a request containing the former
      contains the latter. */
  lemma MoreColorfulIncludesColorful(lower: string)
    requires Includes(lower, "more colorful")
    ensures Includes(lower, "colorful")
  {
    var k :| 0 <= k <= |lower| && OccursAt(lower, "more colorful", k);
    assert lower[k + 5..k + 13] == lower[k..k + 13][5..] == "colorful";
    assert OccursAt(lower, "colorful", k + 5);
  }

  /** A request such as "make it more colorful", which contains `more colorful`
      and no other keyword, gets the colour phrase twice: once for `colorful`
      and once for `more colorful`. */
  lemma MoreColorfulAppendsPhraseTwice(original: string, modification: string, fallback: string)
    requires original != ""
    requires Includes(ToLowerCase(modification), "more colorful")
    requires forall i :: 2 <= i < |Modifications| ==> !Includes(ToLowerCase(modification), Modifications[i].0)
    ensures EnhancedPrompt(Some(original), modification, fallback)
         == original + ", " + ColorPhrase + ", " + ColorPhrase
  {
    var lower := ToLowerCase(modification);
    MoreColorfulIncludesColorful(lower);
    FirstTwoPieces(lower, Modifications);
  }

  /** Every keyword contains a `b`, a `c` or a `d`, so a request without those
      letters, in either case, is appended as typed. */
  lemma RequestWithoutKeywordLettersIsAppended(original: string, modification: string, fallback: string)
    requires original != ""
    requires 'b' !in ToLowerCase(modification) && 'c' !in ToLowerCase(modification)
    requires 'd' !in ToLowerCase(modification)
    ensures EnhancedPrompt(Some(original), modification, fallback) == original + ", " + modification
  {
    var lower := ToLowerCase(modification);
    NotIncludedWithoutChar(lower, "colorful", 'c');
    NotIncludedWithoutChar(lower, "more colorful", 'c');
    NotIncludedWithoutChar(lower, "darker", 'd');
    NotIncludedWithoutChar(lower, "brighter", 'b');
    NotIncludedWithoutChar(lower, "realistic", 'c');
    NotIncludedWithoutChar(lower, "artistic", 'c');
    NotIncludedWithoutChar(lower, "cartoon", 'c');
    NotIncludedWithoutChar(lower, "detailed", 'd');
    EnhancedWithoutKeyword(original, modification, fallback);
  }
}

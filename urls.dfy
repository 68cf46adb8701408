/** The species URLs of the Pokémon API and the sprite URLs built from them:
    the `/\/(\d+)\/$/` match of `src/hooks/useLoadPokemonDetails.ts` and
    `src/components/EvolutionModal.tsx`, written out by hand. */
module Urls {
  import opened Common
  import opened Text

  /** The regular expression matches with its `/` at position `i`: a slash,
      one or more digits, and a final slash that ends the string. */
  predicate SuffixMatchAt(url: string, i: int) {
    0 <= i && i + 2 < |url| && url[i] == '/' && url[|url| - 1] == '/' && AllDigits(url[i + 1..|url| - 1])
  }

  /** The start of the longest all-digit suffix of `s`. */
  function DigitRunStart(s: string): (k: nat)
    ensures k <= |s| && AllDigits(s[k..])
    ensures k > 0 ==> !IsDigit(s[k - 1])
  {
    if |s| > 0 && IsDigit(s[|s| - 1]) then
      var k := DigitRunStart(s[..|s| - 1]);
      assert s[k..] == s[..|s| - 1][k..] + [s[|s| - 1]];
      k
    else |s|
  }

  /** `url.match(/\/(\d+)\/$/)?.[1]`: the captured digits, or `None` when the
      expression does not match. At most one position can match, because the
      captured text contains no slash. */
  function TrailingDigits(url: string): (r: Option<string>)
    ensures r.Some? <==> exists i :: SuffixMatchAt(url, i)
    ensures forall i :: SuffixMatchAt(url, i) ==> r == Some(url[i + 1..|url| - 1])
  {
    if |url| > 0 && url[|url| - 1] == '/' then
      var body := url[..|url| - 1];
      var k := DigitRunStart(body);
      assert forall i :: SuffixMatchAt(url, i) ==> i + 1 == k by {
        forall i | SuffixMatchAt(url, i) ensures i + 1 == k {
          assert url[i + 1..|url| - 1] == body[i + 1..];
          assert forall j :: i + 1 <= j < |body| ==> IsDigit(body[j]) by {
            forall j | i + 1 <= j < |body| ensures IsDigit(body[j]) {
              assert body[j] == body[i + 1..][j - (i + 1)];
            }
          }
          assert forall j :: k <= j < |body| ==> IsDigit(body[j]) by {
            forall j | k <= j < |body| ensures IsDigit(body[j]) {
              assert body[j] == body[k..][j - k];
            }
          }
        }
      }
      if 0 < k < |body| && body[k - 1] == '/' then
        assert url[k..|url| - 1] == body[k..];
        assert SuffixMatchAt(url, k - 1);
        Some(body[k..])
      else None
    else None
  }

  /** `parseInt(url.match(/\/(\d+)\/$/)?.[1] || '0')`: the captured digits
      are never empty, so they are parsed whenever the expression matches. */
  function ParseSpeciesId(url: string): (id: nat)
    ensures (forall i :: !SuffixMatchAt(url, i)) ==> id == 0
  {
    match TrailingDigits(url)
    case Some(ds) => DigitsValue(ds)
    case None => 0
  }

  /** A URL ending in `/<n>/` yields the digits of `n`, and parses back to `n`. */
  lemma {:induction false} ParseSpeciesIdOfUrl(prefix: string, n: nat)
    ensures TrailingDigits(prefix + "/" + NatToString(n) + "/") == Some(NatToString(n))
    ensures ParseSpeciesId(prefix + "/" + NatToString(n) + "/") == n
  {
    var ds := NatToString(n);
    var url := prefix + "/" + ds + "/";
    assert url[|prefix| + 1..|url| - 1] == ds;
    assert SuffixMatchAt(url, |prefix|);
    DigitsValueOfNatToString(n);
  }

  /** Concrete cases of the species URLs the API serves. */
  lemma ParseSpeciesIdExamples()
    ensures ParseSpeciesId("https://pokeapi.co/api/v2/pokemon-species/25/") == 25
    ensures ParseSpeciesId("https://pokeapi.co/api/v2/pokemon-species/25") == 0
    ensures ParseSpeciesId("") == 0
  {
    var url := "https://pokeapi.co/api/v2/pokemon-species/25/";
    var i := |url| - 4;
    assert url[i + 1..|url| - 1] == "25";
    assert SuffixMatchAt(url, i);
    assert DigitsValue("25") == 25 by {
      assert "25"[..1] == "2" && "2"[..0] == "";
    }
    var bare := "https://pokeapi.co/api/v2/pokemon-species/25";
    assert bare[|bare| - 1] == '5';
  }

  /** The sprite store every sprite URL starts with. */
  const SPRITE_BASE := "https://raw.githubusercontent.com/PokeAPI/sprites/master/sprites/pokemon/"

  /** `spriteUrl(id)`: the sprite of the given id text. */
  function SpriteUrl(idText: string): (u: string)
    ensures |u| == |SPRITE_BASE| + |idText| + 4
    ensures u[..|SPRITE_BASE|] == SPRITE_BASE && u[|u| - 4..] == ".png"
  {
    SPRITE_BASE + idText + ".png"
  }

  /** Different id texts give different sprite URLs. */
  lemma SpriteUrlInjective(a: string, b: string)
    requires SpriteUrl(a) == SpriteUrl(b)
    ensures a == b
  {
    var n := |SPRITE_BASE|;
    assert a == SpriteUrl(a)[n..n + |a|];
    assert b == SpriteUrl(b)[n..n + |b|];
  }
}

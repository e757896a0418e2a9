/** `util.Truncate` (internal/util/util.go): shortening measured in runes. A Dafny `string` is a
    sequence of Unicode scalar values, so a `char` here is a Go rune. */
module Util {
  import Text

  /** The first `maxLen - 3` runes and "..." when `s` is longer than `maxLen` runes.
      Go slices `runes[:maxLen-3]`, which panics for a long string when `maxLen < 3`. */
  function Truncate(s: string, maxLen: int): (r: string)
    requires |s| <= maxLen || maxLen >= 3
  {
    if |s| <= maxLen then s else s[..maxLen - 3] + "..."
  }

  /** Short text is left alone; long text keeps its first `maxLen - 3` runes and ends in "...",
      and is then exactly `maxLen` runes long. */
  lemma TruncateShape(s: string, maxLen: int)
    requires |s| <= maxLen || maxLen >= 3
    ensures |s| <= maxLen ==> Truncate(s, maxLen) == s
    ensures |s| > maxLen ==>
              |Truncate(s, maxLen)| == maxLen &&
              Truncate(s, maxLen)[..maxLen - 3] == s[..maxLen - 3] &&
              Text.EndsWith(Truncate(s, maxLen), "...")
  {
  }

  /** For `maxLen >= 3` the result never exceeds `maxLen` runes. */
  lemma TruncateBound(s: string, maxLen: int)
    requires maxLen >= 3
    ensures |Truncate(s, maxLen)| <= maxLen
    ensures |Truncate(s, maxLen)| == maxLen <==> |s| >= maxLen
  {
  }

  /** Truncating twice is truncating once. */
  lemma TruncateIdempotent(s: string, maxLen: int)
    requires maxLen >= 3
    ensures Truncate(Truncate(s, maxLen), maxLen) == Truncate(s, maxLen)
  {
    TruncateBound(s, maxLen);
  }

  /** The callers' limits: model names at 30 runes, messages at 100. */
  lemma TruncateExample()
    ensures Truncate("anthropic/claude-3.5-sonnet-20241022", 30) == "anthropic/claude-3.5-sonnet..."
    ensures Truncate("gpt-4o", 30) == "gpt-4o"
  {
  }
}

/** Values shared by every part of the inline-edit model: optional values
    (TypeScript's `T | null` and `T | undefined`) and JavaScript strings,
    which are sequences of UTF-16 code units. */
module Base {

  /** A value or nothing (`null` / `undefined`). */
  datatype Option<+T> = None | Some(value: T) {
    /** `x ?? d`: the value, or `d` when there is none. */
    function GetOr(d: T): T {
      match this
      case Some(v) => v
      case None => d
    }
  }

  /** One UTF-16 code unit: JavaScript's `length` and `slice` count these. */
  newtype CodeUnit = x: int | 0 <= x < 0x1_0000

  /** A JavaScript string. */
  type Text = seq<CodeUnit>

  /** U+200B ZERO WIDTH SPACE, the read view's layout filler. */
  const ZeroWidthSpace: CodeUnit := 0x200B

  /** The string `"\u200B"`. */
  const Filler: Text := [ZeroWidthSpace]

  /** `v ?? ""` */
  function OrEmpty(v: Option<Text>): Text {
    v.GetOr([])
  }

  /** `s.slice(0, end)` for an integer `end`: a negative `end` counts back
      from the end of `s`, and an `end` past the end stops there. */
  function SliceTo(s: Text, end: int): (r: Text)
    ensures |r| <= |s| && r == s[..|r|]
    ensures 0 <= end ==> |r| == if end < |s| then end else |s|
    ensures end < 0 ==> |r| == if |s| + end < 0 then 0 else |s| + end
  {
    if end < 0 then s[..if |s| + end < 0 then 0 else |s| + end]
    else if end < |s| then s[..end]
    else s
  }
}

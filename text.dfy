/** The few string operations the core uses, on `seq<char>`, and JavaScript's `in` on plain objects. */
module Text {

  predicate StartsWith(s: string, prefix: string) {
    |prefix| <= |s| && s[..|prefix|] == prefix
  }

  predicate EndsWith(s: string, suffix: string) {
    |suffix| <= |s| && s[|s| - |suffix|..] == suffix
  }

  /** `s.includes(part)`: `part` occurs at some offset of `s`. */
  predicate Contains(s: string, part: string)
    decreases |s|
  {
    StartsWith(s, part) || (|s| > 0 && Contains(s[1..], part))
  }

  function LowerChar(c: char): char {
    if 'A' <= c <= 'Z' then (c as int + 32) as char else c
  }

  /**
   * `toLowerCase()`, restricted to the ASCII letters: no capital is left, each capital
   * becomes its small letter, and every other character stays as it was.
   */
  function ToLower(s: string): (r: string)
    ensures |r| == |s|
    ensures forall i :: 0 <= i < |r| ==> !('A' <= r[i] <= 'Z')
    ensures forall i :: 0 <= i < |s| && 'A' <= s[i] <= 'Z' ==> r[i] as int == s[i] as int + 32
    ensures forall i :: 0 <= i < |s| && !('A' <= s[i] <= 'Z') ==> r[i] == s[i]
  {
    seq(|s|, i requires 0 <= i < |s| => LowerChar(s[i]))
  }

  /**
   * The names every plain JavaScript object inherits from `Object.prototype`
   * (section 20.1.3 of ECMAScript 2024 and its Annex B.2.2), which `key in obj`
   * finds although the object never set them.
   */
  const PrototypeKeys: set<string> := {
    "constructor", "hasOwnProperty", "isPrototypeOf", "propertyIsEnumerable", "toLocaleString",
    "toString", "valueOf", "__proto__", "__defineGetter__", "__defineSetter__", "__lookupGetter__",
    "__lookupSetter__"
  }

  /** JavaScript's `key in obj` on a plain object whose own keys are `ownKeys`. */
  predicate JsIn(key: string, ownKeys: set<string>) {
    key in ownKeys || key in PrototypeKeys
  }
}

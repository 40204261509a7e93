/**
 * Small shared definitions: optional values (`None` stands for JavaScript's
 * `null` / `undefined`), their truthiness, and `Math.min` / `Math.max` on
 * integers.
 */
module Wrappers {

  datatype Option<+T> = None | Some(value: T)

  /** JavaScript truthiness of an optional string: present and non-empty. */
  predicate Truthy(s: Option<string>) {
    s.Some? && s.value != ""
  }

  function Min(a: int, b: int): int { if a <= b then a else b }

  function Max(a: int, b: int): int { if a >= b then a else b }
}

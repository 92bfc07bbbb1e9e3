module Numbers {
  function Min(a: nat, b: nat): (m: nat)
    ensures m <= a && m <= b && (m == a || m == b)
  {
    if a < b then a else b
  }

  function Abs(x: real): (r: real)
    ensures r >= 0.0 && r >= x && r >= -x
  {
    if x < 0.0 then -x else x
  }

  function Max(a: real, b: real): real {
    if a < b then b else a
  }

  function MinReal(a: real, b: real): real {
    if b < a then b else a
  }

  /** std::clamp */
  function Clamp(x: real, lo: real, hi: real): (c: real)
    requires lo <= hi
    ensures lo <= c <= hi
    ensures lo <= x <= hi ==> c == x
  {
    if x < lo then lo else if x > hi then hi else x
  }
}

/** The qualifiers of a type: const, restrict and volatile (section 6.7.3 of C99). */
module Qualifiers {
  datatype Quals = Quals(c: bool, r: bool, v: bool)

  const NONE: Quals := Quals(false, false, false)

  function Both(p: Quals, q: Quals): Quals {
    Quals(p.c || q.c, p.r || q.r, p.v || q.v)
  }
}

/** Loops over Go maps, whose iteration order is not specified. */
module Maps {

  /** Every pair of `more` is put into `all`. */
  method Overwrite<V>(all: map<string, V>, more: map<string, V>) returns (r: map<string, V>)
    ensures r == all + more
  {
    r := all;
    var rest := more.Keys;
    while rest != {}
      invariant rest <= more.Keys
      invariant r == all + map k | k in more && k !in rest :: more[k]
      decreases rest
    {
      var k :| k in rest;
      r, rest := r[k := more[k]], rest - {k};
    }
  }

  /** The same, but only for keys that are not there yet. */
  method Fill<V>(all: map<string, V>, more: map<string, V>) returns (r: map<string, V>)
    ensures r == more + all
  {
    r := all;
    var rest := more.Keys;
    while rest != {}
      invariant rest <= more.Keys
      invariant r == (map k | k in more && k !in rest :: more[k]) + all
      decreases rest
    {
      var k :| k in rest;
      if k !in r {
        r := r[k := more[k]];
      }
      rest := rest - {k};
    }
  }
}

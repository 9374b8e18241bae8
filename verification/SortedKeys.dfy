/** The key order of the original's sorted maps: strings by their characters. */
module SortedKeys {
  predicate Before(a: string, b: string) {
    b != "" && (a == "" || a[0] < b[0] || (a[0] == b[0] && Before(a[1..], b[1..])))
  }

  /** A key comes before those it begins, and otherwise the first difference decides. */
  lemma {:induction false} BeforeIsDictionary(a: string, b: string, k: nat)
    requires k <= |a| && k <= |b| && a[..k] == b[..k] && (k < |a| && k < |b| ==> a[k] != b[k])
    ensures Before(a, b) <==> k < |b| && (k == |a| || a[k] < b[k])
  {
    if k > 0 {
      assert a[0] == a[..k][0] == b[..k][0] == b[0];
      assert a[1..][..k - 1] == a[..k][1..] == b[..k][1..] == b[1..][..k - 1];
      BeforeIsDictionary(a[1..], b[1..], k - 1);
    }
  }

  lemma {:induction false} BeforeTotal(a: string, b: string)
    ensures a == b || Before(a, b) || Before(b, a)
  {
    if a != "" && b != "" && a[0] == b[0] {
      assert a == [a[0]] + a[1..] && b == [b[0]] + b[1..];
      BeforeTotal(a[1..], b[1..]);
    }
  }

  lemma {:induction false} BeforeTransitive(a: string, b: string, c: string)
    requires Before(a, b) && Before(b, c)
    ensures Before(a, c)
  {
    if a != "" && a[0] == b[0] && b[0] == c[0] { BeforeTransitive(a[1..], b[1..], c[1..]); }
  }

  /** No key of `keys` comes before `name`. */
  ghost predicate IsFirst(name: string, keys: set<string>) {
    name in keys && forall key | key in keys :: !Before(key, name)
  }

  /** The next key an iteration over the map visits. */
  method First(keys: set<string>) returns (name: string)
    requires keys != {}
    ensures IsFirst(name, keys)
  {
    name :| name in keys;
    var left := keys - {name};
    BeforeIrreflexive(name);
    while left != {}
      invariant left <= keys && name in keys && forall key | key in keys - left :: !Before(key, name)
      decreases |left|
    {
      var key :| key in left;
      if Before(key, name) {
        forall other | other in keys - left ensures !Before(other, key) {
          if Before(other, key) { BeforeTransitive(other, key, name); }
        }
        name := key;
        BeforeIrreflexive(name);
      }
      left := left - {key};
    }
  }

  lemma {:induction false} BeforeIrreflexive(a: string)
    ensures !Before(a, a)
  {
    if a != "" { BeforeIrreflexive(a[1..]); }
  }

  /** The first of some different keys comes before all the others. */
  lemma FirstIsBefore(name: string, keys: set<string>)
    requires IsFirst(name, keys)
    ensures forall key | key in keys && key != name :: Before(name, key)
  {
    forall key | key in keys && key != name ensures Before(name, key) {
      BeforeTotal(name, key);
    }
  }
}

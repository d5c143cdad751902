/** The two URL operations the parsers use: `rstrip('/')` on the configured
    base address, and `urllib.parse.urljoin` with an absolute-path reference,
    which keeps the base's scheme and authority and replaces its whole path
    (section 5.2.2 of RFC 3986). */
module Url {

  predicate StartsWith(s: string, p: string) {
    |p| <= |s| && s[..|p|] == p
  }

  /** `u.rstrip('/')`. */
  function TrimTrailingSlashes(u: string): (r: string)
    ensures StartsWith(u, r)
    ensures |r| == 0 || r[|r| - 1] != '/'
    ensures forall k :: |r| <= k < |u| ==> u[k] == '/'
  {
    if |u| > 0 && u[|u| - 1] == '/' then TrimTrailingSlashes(u[..|u| - 1]) else u
  }

  /** Trimming a trimmed address changes nothing. */
  lemma TrimIsIdempotent(u: string)
    ensures TrimTrailingSlashes(TrimTrailingSlashes(u)) == TrimTrailingSlashes(u)
  {
  }

  /** The three properties of `TrimTrailingSlashes` determine its result. */
  lemma {:induction false} TrimIsUnique(u: string, r: string)
    requires StartsWith(u, r)
    requires |r| == 0 || r[|r| - 1] != '/'
    requires forall k :: |r| <= k < |u| ==> u[k] == '/'
    ensures r == TrimTrailingSlashes(u)
  {
    if |u| > 0 && u[|u| - 1] == '/' && |r| < |u| {
      assert StartsWith(u[..|u| - 1], r);
      TrimIsUnique(u[..|u| - 1], r);
    }
  }

  predicate EndsAuthority(c: char) {
    c == '/' || c == '?' || c == '#'
  }

  /** Index of the first `/`, `?` or `#` at or after `k`, or `|s|`. */
  function AuthorityEnd(s: string, k: nat): (e: nat)
    requires k <= |s|
    ensures k <= e <= |s|
    ensures e < |s| ==> EndsAuthority(s[e])
    ensures forall j :: k <= j < e ==> !EndsAuthority(s[j])
    decreases |s| - k
  {
    if k == |s| || EndsAuthority(s[k]) then k else AuthorityEnd(s, k + 1)
  }

  /** Scheme and authority of an `http`/`https` address, `""` for any other. */
  function Origin(base: string): (o: string)
    ensures StartsWith(base, o)
    ensures o != "" ==> StartsWith(o, "http://") || StartsWith(o, "https://")
  {
    if StartsWith(base, "http://") then base[..AuthorityEnd(base, 7)]
    else if StartsWith(base, "https://") then base[..AuthorityEnd(base, 8)]
    else ""
  }

  predicate IsAbsolutePath(p: string) {
    |p| > 0 && p[0] == '/'
  }

  /** `urljoin(base, path)` for an absolute-path reference `path`. */
  function Join(base: string, path: string): (r: string)
    requires IsAbsolutePath(path)
    ensures StartsWith(r, Origin(base)) && r[|Origin(base)|..] == path
  {
    Origin(base) + path
  }

  /** The path of the base, and anything after its authority, plays no part in the join. */
  lemma JoinDropsBasePath(base: string, more: string, path: string)
    requires IsAbsolutePath(path)
    requires Origin(base) != "" && (|more| == 0 || EndsAuthority(more[0]))
    ensures Join(Origin(base) + more, path) == Join(base, path)
  {
    var o := Origin(base);
    var b2 := o + more;
    assert b2[..|o|] == o;
    if StartsWith(base, "http://") {
      assert StartsWith(b2, "http://");
      assert AuthorityEnd(b2, 7) == |o| by {
        forall j | 7 <= j < |o| ensures !EndsAuthority(b2[j]) {
          assert b2[j] == base[j];
        }
      }
    } else {
      assert StartsWith(b2, "https://") && !StartsWith(b2, "http://") by {
        assert b2[..8] == base[..8];
        assert b2[..7] == base[..7];
      }
      assert AuthorityEnd(b2, 8) == |o| by {
        forall j | 8 <= j < |o| ensures !EndsAuthority(b2[j]) {
          assert b2[j] == base[j];
        }
      }
    }
  }
}

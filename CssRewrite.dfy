/**
 * The rewrite of relative parent references in combined CSS:
 * `preg_replace('/(\.\.\/)+/i', $url, $chunk)` replaces every maximal run of
 * one or more `../` with the site's root URL. The URL is inserted literally,
 * which is what `preg_replace` does for a replacement without `$n`, `${n}`
 * or `\n` back-references.
 */
module CssRewrite {

  /** `s` starts with `../`. */
  predicate StartsWithUp(s: string) {
    |s| >= 3 && s[0] == '.' && s[1] == '.' && s[2] == '/'
  }

  /** `s` contains `../` somewhere. */
  predicate HasUp(s: string) {
    exists i :: 0 <= i < |s| - 2 && StartsWithUp(s[i..])
  }

  /** Dropping the first character keeps a text free of `../`. */
  lemma NoUpTail(a: string)
    requires a != [] && !HasUp(a)
    ensures !HasUp(a[1..])
  {
    forall i | 0 <= i < |a[1..]| - 2
      ensures !StartsWithUp(a[1..][i..])
    {
      assert a[1..][i..] == a[i + 1..];
    }
  }

  /** A text free of `../` that does not end in `.` starts nothing with `../`. */
  lemma PlainHead(a: string, t: string)
    requires a != [] && !HasUp(a) && a[|a| - 1] != '.'
    ensures !StartsWithUp(a + t)
  {
    if |a| >= 3 {
      assert a[0..] == a;
      assert !StartsWithUp(a[0..]);
      assert (a + t)[..3] == a[..3];
    } else {
      assert (a + t)[|a| - 1] == a[|a| - 1];
    }
  }

  /** A text free of `../` followed by `..` does not start with `../`:
      the `.` it may end in cannot begin a match. */
  lemma RunHead(a: string, u: string)
    requires a != [] && !HasUp(a) && |u| >= 2 && u[0] == '.' && u[1] == '.'
    ensures !StartsWithUp(a + u)
  {
    if |a| >= 3 {
      assert a[0..] == a;
      assert !StartsWithUp(a[0..]);
      assert (a + u)[..3] == a[..3];
    } else {
      assert (a + u)[|a|] == '.' && (a + u)[|a| + 1] == '.';
    }
  }

  /** `../` repeated `n` times. */
  function Ups(n: nat): (r: string)
    ensures |r| == 3 * n
  {
    if n == 0 then [] else "../" + Ups(n - 1)
  }

  /** What is left after the greedy match of `(\.\.\/)+` at the front;
      `DropUpsSuffix` shows it is a suffix of `s`. */
  function DropUps(s: string): (r: string)
    ensures |r| <= |s|
    ensures StartsWithUp(s) ==> |r| < |s|
    ensures !StartsWithUp(r)
  {
    if StartsWithUp(s) then DropUps(s[3..]) else s
  }

  /** The match only removes characters from the front. */
  lemma {:induction false} DropUpsSuffix(s: string)
    ensures DropUps(s) == s[|s| - |DropUps(s)|..]
    decreases |s|
  {
    if StartsWithUp(s) {
      var t := s[3..];
      DropUpsSuffix(t);
      assert t[|t| - |DropUps(t)|..] == s[|s| - |DropUps(t)|..];
    } else {
      assert s[0..] == s;
    }
  }

  /** The global replacement, scanning left to right: at each position a
      run of `../` is matched greedily and replaced, otherwise one character
      is copied. */
  function RewriteRelative(s: string, url: string): string
    decreases |s|
  {
    if s == [] then []
    else if StartsWithUp(s) then url + RewriteRelative(DropUps(s), url)
    else [s[0]] + RewriteRelative(s[1..], url)
  }

  /** A text that does not start with `../` has its first character copied. */
  lemma RewriteCopy(s: string, url: string)
    requires s != [] && !StartsWithUp(s)
    ensures RewriteRelative(s, url) == [s[0]] + RewriteRelative(s[1..], url)
  {
  }

  /** Text without `../` is left unchanged. */
  lemma {:induction false} RewriteWithoutUp(s: string, url: string)
    requires !HasUp(s)
    ensures RewriteRelative(s, url) == s
    decreases |s|
  {
    if s != [] {
      assert !StartsWithUp(s[0..]);
      assert s[0..] == s;
      RewriteWithoutUp(s[1..], url);
    }
  }

  /** A run of `n` steps up, followed by `t`, is one step up followed by the rest. */
  lemma UpsFront(n: nat, t: string)
    requires n >= 1
    ensures Ups(n) + t == "../" + (Ups(n - 1) + t)
  {
    assert Ups(n) == "../" + Ups(n - 1);
  }

  /** The greedy match goes past a leading `../`. */
  lemma DropUpsStep(u: string)
    ensures DropUps("../" + u) == DropUps(u)
  {
    var s := "../" + u;
    assert s[0] == '.' && s[1] == '.' && s[2] == '/';
    assert s[3..] == u;
  }

  lemma {:induction false} DropUpsRun(n: nat, t: string)
    requires !StartsWithUp(t)
    ensures DropUps(Ups(n) + t) == t
  {
    if n == 0 {
      assert Ups(n) + t == t;
    } else {
      calc {
        DropUps(Ups(n) + t);
        { UpsFront(n, t); }
        DropUps("../" + (Ups(n - 1) + t));
        { DropUpsStep(Ups(n - 1) + t); }
        DropUps(Ups(n - 1) + t);
        { DropUpsRun(n - 1, t); }
        t;
      }
    }
  }

  /** A run of one or more `../` becomes one copy of the URL, whatever its length. */
  lemma RewriteRun(n: nat, t: string, url: string)
    requires n >= 1 && !StartsWithUp(t)
    ensures RewriteRelative(Ups(n) + t, url) == url + RewriteRelative(t, url)
  {
    assert Ups(n) + t == "../" + (Ups(n - 1) + t);
    DropUpsRun(n, t);
  }

  /** Text without `../` that does not end in `.` passes through unchanged
      in front of whatever follows it: no match straddles the boundary. */
  lemma {:induction false} RewritePlainPrefix(a: string, t: string, url: string)
    requires !HasUp(a)
    requires a == [] || a[|a| - 1] != '.'
    ensures RewriteRelative(a + t, url) == a + RewriteRelative(t, url)
    decreases |a|
  {
    if a != [] {
      var s := a + t;
      PlainHead(a, t);
      RewriteCopy(s, url);
      assert s[1..] == a[1..] + t;
      NoUpTail(a);
      RewritePlainPrefix(a[1..], t, url);
      assert a == [a[0]] + a[1..];
    } else {
      assert a + t == t;
    }
  }

  /** Text without `../` passes through unchanged in front of anything that
      starts with `..`, even when it ends in `.`. */
  lemma {:induction false} RewriteBeforeDots(a: string, u: string, url: string)
    requires !HasUp(a) && |u| >= 2 && u[0] == '.' && u[1] == '.'
    ensures RewriteRelative(a + u, url) == a + RewriteRelative(u, url)
    decreases |a|
  {
    if a != [] {
      var s := a + u;
      RunHead(a, u);
      RewriteCopy(s, url);
      assert s[1..] == a[1..] + u;
      NoUpTail(a);
      RewriteBeforeDots(a[1..], u, url);
      assert a == [a[0]] + a[1..];
    } else {
      assert a + u == u;
    }
  }

  /** A maximal run of `../` after any text without `../` becomes one copy
      of the URL, the text before it passing through unchanged. The text may
      end in `.`: the run begins with `..`, not `/`, so that `.` cannot start
      an earlier match. */
  lemma RewriteRunAfter(a: string, n: nat, t: string, url: string)
    requires !HasUp(a) && n >= 1 && !StartsWithUp(t)
    ensures RewriteRelative(a + Ups(n) + t, url) == a + url + RewriteRelative(t, url)
  {
    var u := Ups(n) + t;
    assert a + Ups(n) + t == a + u;
    assert Ups(n) == "../" + Ups(n - 1);
    RewriteBeforeDots(a, u, url);
    RewriteRun(n, t, url);
  }

  /** `a.../b`: the dot before the run is kept and the run is replaced. */
  lemma DotBeforeRun(url: string)
    ensures RewriteRelative("a.../b", url) == "a." + url + "b"
  {
    assert "a.../b" == "a." + Ups(1) + "b";
    RewriteRunAfter("a.", 1, "b", url);
    RewriteWithoutUp("b", url);
  }
}

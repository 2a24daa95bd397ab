// The connection string Connect first opens to create the database: the
// given one with the database name (between the last '/' and the '?' that
// follows it) removed.

module Database {
  import opened Strings

  /** The base connection string of Connect. */
  function BaseConnectionString(s: string): (r: string)
    ensures |r| <= |s|
    ensures LastIndex(s, '/') >= 0 ==> |r| > LastIndex(s, '/') && r[..LastIndex(s, '/') + 1] == s[..LastIndex(s, '/') + 1]
  {
    var slash := LastIndex(s, '/');
    if slash == -1 then s
    else
      var question := Index(s[slash..], '?');
      if question != -1 then s[..slash + 1] + s[slash + question..]
      else s[..slash + 1]
  }

  /** Without a '/' there is no database name to remove. */
  lemma NoSlashUnchanged(s: string)
    requires '/' !in s
    ensures BaseConnectionString(s) == s
  {
  }

  /** With the last '/' at i and the first '?' after it at j, exactly the
      characters strictly between them are removed. */
  lemma RemovesNameBeforeQuery(s: string, i: int, j: int)
    requires 0 <= i < j < |s|
    requires s[i] == '/' && forall k :: i < k < |s| ==> s[k] != '/'
    requires s[j] == '?' && forall k :: i < k < j ==> s[k] != '?'
    ensures BaseConnectionString(s) == s[..i + 1] + s[j..]
  {
    LastIndexAt(s, '/', i);
    var tail := s[i..];
    assert tail[j - i] == '?';
    forall k | 0 <= k < j - i ensures tail[k] != '?' {
      assert tail[k] == s[i + k];
    }
    IndexAt(tail, '?', j - i);
  }

  /** With the last '/' at i and no '?' after it, everything after the '/'
      is removed. */
  lemma RemovesTail(s: string, i: int)
    requires 0 <= i < |s|
    requires s[i] == '/' && forall k :: i < k < |s| ==> s[k] != '/'
    requires forall k :: i < k < |s| ==> s[k] != '?'
    ensures BaseConnectionString(s) == s[..i + 1]
  {
    LastIndexAt(s, '/', i);
    assert Index(s[i..], '?') == -1 by {
      forall k | 0 <= k < |s| - i ensures s[i..][k] != '?' {
        assert s[i..][k] == s[i + k];
      }
    }
  }

  /** A '/' in the query part becomes the cut point: the database name is
      kept and the query is cut after that '/'. */
  lemma SlashInQueryKeepsName()
    ensures BaseConnectionString("h/db?o=a/b") == "h/db?o=a/"
  {
    var s := "h/db?o=a/b";
    RemovesTail(s, 8);
    assert s[..9] == "h/db?o=a/";
  }

  /** Removing the name twice is removing it once: after the first pass the
      last '/' is immediately followed by the '?' (or ends the string). */
  lemma BaseConnectionStringIdempotent(s: string)
    ensures BaseConnectionString(BaseConnectionString(s)) == BaseConnectionString(s)
  {
    var r := BaseConnectionString(s);
    var i := LastIndex(s, '/');
    if i >= 0 {
      var question := Index(s[i..], '?');
      if question != -1 {
        var j := i + question;
        assert r == s[..i + 1] + s[j..];
        assert r[i] == '/' && r[i + 1] == '?';
        forall k | i < k < |r| ensures r[k] != '/' {
          assert r[k] == s[j + k - i - 1];
        }
        RemovesNameBeforeQuery(r, i, i + 1);
        assert r[..i + 1] + r[i + 1..] == r;
      } else {
        RemovesTail(r, i);
      }
    }
  }
}

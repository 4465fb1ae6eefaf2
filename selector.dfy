/** The action selector: the first command-line argument that is exactly one of
    the four keywords decides the action; without one the action is "help". */
module Selector {

  /** The four recognised action keywords; comparison is exact string equality. */
  predicate IsKeyword(arg: string) {
    arg == "status" || arg == "start" || arg == "daemon" || arg == "stop"
  }

  predicate NoKeyword(args: seq<string>) {
    forall i :: 0 <= i < |args| ==> !IsKeyword(args[i])
  }

  /** Scans the arguments left to right (argument 0 included) and returns the
      first keyword, or "help" when there is none. */
  function Matching(args: seq<string>): (action: string)
    ensures IsKeyword(action) || action == "help"
    ensures action == "help" <==> NoKeyword(args)
    ensures action != "help" ==>
      exists i :: 0 <= i < |args| && args[i] == action && NoKeyword(args[..i])
  {
    if args == [] then "help"
    else if args[0] == "status" then args[0]
    else if args[0] == "start" then args[0]
    else if args[0] == "daemon" then args[0]
    else if args[0] == "stop" then args[0]
    else
      var action := Matching(args[1..]);
      assert action != "help" ==> exists i :: 0 <= i < |args| && args[i] == action && NoKeyword(args[..i]) by {
        if action != "help" {
          var i :| 0 <= i < |args[1..]| && args[1..][i] == action && NoKeyword(args[1..][..i]);
          assert args[..i + 1] == [args[0]] + args[1..][..i];
          assert args[i + 1] == action;
        }
      }
      action
  }

  /** A keyword in the arguments already scanned decides the action: whatever
      follows, later keywords included, never changes it. */
  lemma {:induction false} MatchingKeepsFirst(scanned: seq<string>, rest: seq<string>)
    requires !NoKeyword(scanned)
    ensures Matching(scanned + rest) == Matching(scanned)
  {
    assert scanned != [];
    assert (scanned + rest)[0] == scanned[0];
    if !IsKeyword(scanned[0]) {
      assert (scanned + rest)[1..] == scanned[1..] + rest;
      assert !NoKeyword(scanned[1..]) by {
        var i :| 0 <= i < |scanned| && IsKeyword(scanned[i]);
        assert scanned[1..][i - 1] == scanned[i];
      }
      MatchingKeepsFirst(scanned[1..], rest);
    }
  }

  /** Arguments that are not keywords are skipped: the action is decided by
      what follows them. */
  lemma {:induction false} MatchingSkipsNonKeywords(skipped: seq<string>, rest: seq<string>)
    requires NoKeyword(skipped)
    ensures Matching(skipped + rest) == Matching(rest)
  {
    if skipped == [] {
      assert skipped + rest == rest;
    } else {
      assert !IsKeyword(skipped[0]);
      assert (skipped + rest)[0] == skipped[0];
      assert (skipped + rest)[1..] == skipped[1..] + rest;
      assert NoKeyword(skipped[1..]) by {
        forall i | 0 <= i < |skipped[1..]| ensures !IsKeyword(skipped[1..][i]) {
          assert skipped[1..][i] == skipped[i + 1];
        }
      }
      MatchingSkipsNonKeywords(skipped[1..], rest);
    }
  }

  /** Near misses of a keyword (other case, a suffix, surrounding blanks) are not
      keywords, so they select help; a lone program path selects help too. */
  lemma MatchingIsExact()
    ensures Matching(["./app", "Start", "stop1", "STATUS", " daemon"]) == "help"
    ensures Matching(["./app"]) == "help"
  {
    var args := ["./app", "Start", "stop1", "STATUS", " daemon"];
    assert NoKeyword(args) by {
      forall i | 0 <= i < |args| ensures !IsKeyword(args[i]) {
        assert args[i] in {"./app", "Start", "stop1", "STATUS", " daemon"};
      }
    }
    assert NoKeyword(["./app"]);
  }
}

/** The newline form of the key column. */
module KeyColumn {
  import opened Common
  import opened Text

  function TrimSuffix(s: string, c: char): string {
    if s != "" && s[|s| - 1] == c then s[..|s| - 1] else s
  }

  /** decoded is what the JSON decoder makes of the column, None if it cannot read it. */
  function GetKeys(column: string, decoded: Option<seq<string>>): seq<string> {
    if column == "" then []
    else if column[0] == '[' then (if decoded.Some? then decoded.value else [])
    else Split(TrimSuffix(column, '\n'), '\n')
  }

  /** Keys that can be stored one per line. */
  ghost predicate LineKeys(keys: seq<string>) {
    && (forall k :: k in keys ==> '\n' !in k)
    && (keys != [] && keys[0] != "" ==> keys[0][0] != '[')
  }

  lemma {:induction false} JoinEmpty(keys: seq<string>)
    requires keys != []
    ensures Join(keys, '\n') == "" <==> keys == [""]
    ensures |keys| > 1 && keys[0] == "" ==> Join(keys, '\n')[0] == '\n'
    ensures keys[0] != "" ==> Join(keys, '\n') != "" && Join(keys, '\n')[0] == keys[0][0]
  {
  }

  lemma {:induction false} JoinEnd(keys: seq<string>)
    requires keys != [] && Join(keys, '\n') != "" && forall k :: k in keys ==> '\n' !in k
    ensures var t := Join(keys, '\n');
            t[|t| - 1] == '\n' <==> keys[|keys| - 1] == ""
  {
    var t := Join(keys, '\n');
    if |keys| > 1 {
      JoinEmpty(keys[1..]);
      if Join(keys[1..], '\n') != "" {
        JoinEnd(keys[1..]);
      }
    } else {
      assert t[|t| - 1] in t;
    }
  }

  lemma {:induction false} JoinDrop(keys: seq<string>)
    requires |keys| > 1 && keys[|keys| - 1] == ""
    ensures var t := Join(keys, '\n');
            t != "" && t[..|t| - 1] == Join(keys[..|keys| - 1], '\n')
  {
    var n := |keys| - 1;
    if n > 1 {
      JoinDrop(keys[1..]);
      assert keys[..n][1..] == keys[1..][..n - 1];
    } else {
      assert keys[..1] == [keys[0]];
    }
  }

  lemma EmptyLastIsLost(keys: seq<string>, decoded: Option<seq<string>>)
    requires LineKeys(keys) && |keys| > 1 && keys[|keys| - 1] == ""
    ensures GetKeys(Join(keys, '\n'), decoded) == keys[..|keys| - 1]
  {
    var t, front := Join(keys, '\n'), keys[..|keys| - 1];
    JoinEmpty(keys);
    JoinEnd(keys);
    JoinDrop(keys);
    assert TrimSuffix(t, '\n') == Join(front, '\n');
    assert forall k :: k in front ==> k in keys;
    SplitOfJoin(front, '\n');
  }

  lemma OtherwiseReadBack(keys: seq<string>, decoded: Option<seq<string>>)
    requires LineKeys(keys) && keys != [] && keys[|keys| - 1] != ""
    ensures GetKeys(Join(keys, '\n'), decoded) == keys
  {
    JoinEmpty(keys);
    JoinEnd(keys);
    SplitOfJoin(keys, '\n');
  }

  /**
   * Keys joined by newlines are read back exactly when the last of them is not empty: a
   * trailing newline is taken for the end of the list, once.
   */
  lemma ReadBackIff(keys: seq<string>, decoded: Option<seq<string>>)
    requires LineKeys(keys)
    ensures GetKeys(Join(keys, '\n'), decoded) == keys <==> keys == [] || keys[|keys| - 1] != ""
    ensures keys != [] && keys != [""] && keys[|keys| - 1] == "" ==>
              GetKeys(Join(keys, '\n'), decoded) == keys[..|keys| - 1]
  {
    if keys != [] && keys != [""] {
      if keys[|keys| - 1] == "" {
        EmptyLastIsLost(keys, decoded);
      } else {
        OtherwiseReadBack(keys, decoded);
      }
    }
  }

  /** One trailing newline makes no difference, so every list of line keys can be stored. */
  lemma TrailingNewline(keys: seq<string>, decoded: Option<seq<string>>)
    requires LineKeys(keys) && keys != []
    ensures GetKeys(Join(keys, '\n') + "\n", decoded) == keys
  {
    var t := Join(keys, '\n');
    JoinEmpty(keys);
    SplitOfJoin(keys, '\n');
    assert (t + "\n")[..|t|] == t;
  }

  /** Whatever the column, its keys in newline form never hold a newline, and there is at least one. */
  lemma KeysAreLines(column: string, decoded: Option<seq<string>>)
    requires column != "" && column[0] != '['
    ensures var keys := GetKeys(column, decoded);
            && keys != []
            && (forall k :: k in keys ==> '\n' !in k)
            && (column == Join(keys, '\n') || column == Join(keys, '\n') + "\n")
  {
    var t := TrimSuffix(column, '\n');
    SplitPartsFree(t, '\n');
    JoinOfSplit(t, '\n');
    assert column == t || column == t + "\n";
  }
}

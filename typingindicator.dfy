/** The typing indicator (`TypingIndicator.tsx`): the line of text naming who else is
    typing, or nothing. */
module TypingIndicator {
  import opened Wrappers
  import opened Seqs
  import opened Text

  /** The text shown for the typing list `users` seen by `currentUser`; `None` when
      nobody else is typing. */
  function TypingMessage(users: seq<string>, currentUser: string): (r: Option<string>)
    ensures r.None? <==> forall i :: 0 <= i < |users| ==> users[i] == currentUser
  {
    WithoutEmpty(users, currentUser);
    var others := Without(users, currentUser);
    if |others| == 0 then None
    else if |others| == 1 then Some(others[0] + " esta digitando...")
    else Some(others[0] + " e mais " + NatToString(|others| - 1) + " pessoa(s) estao digitando...")
  }

  /** When something is shown it names the first listed user who is not the viewer:
      alone as "<name> esta digitando...", or with the number of further users as
      "<name> e mais <k> pessoa(s) estao digitando...". */
  lemma TypingMessageNames(users: seq<string>, currentUser: string) returns (k: nat)
    requires TypingMessage(users, currentUser).Some?
    ensures k < |users| && users[k] != currentUser
    ensures forall j :: 0 <= j < k ==> users[j] == currentUser
    ensures var text := TypingMessage(users, currentUser).value;
      var more := |Without(users, currentUser)| - 1;
      && (more == 0 ==> text == users[k] + " esta digitando...")
      && (more > 0 ==> text == users[k] + " e mais " + NatToString(more) + " pessoa(s) estao digitando...")
  {
    k := WithoutHead(users, currentUser);
  }

  /** On the chat page the viewer is never in the typing list, so the indicator names the
      first listed user and counts all the others. */
  lemma IndicatorWithoutViewer(users: seq<string>, currentUser: string)
    requires currentUser !in users
    ensures TypingMessage(users, currentUser).None? <==> users == []
    ensures |users| == 1 ==> TypingMessage(users, currentUser) == Some(users[0] + " esta digitando...")
    ensures |users| > 1 ==>
      TypingMessage(users, currentUser) == Some(users[0] + " e mais " + NatToString(|users| - 1) + " pessoa(s) estao digitando...")
  {
    WithoutAbsent(users, currentUser);
  }

  /** One other typist is named alone. */
  lemma TypingMessageOneOther()
    ensures TypingMessage(["Ana"], "Bia") == Some("Ana esta digitando...")
  {
    var users := ["Ana"];
    assert Without(users[1..], "Bia") == [];
    assert Without(users, "Bia") == ["Ana"];
    var others := Without(users, "Bia");
    assert |others| == 1;
    assert others[0] + " esta digitando..." == "Ana esta digitando...";
    assert TypingMessage(users, "Bia") == Some(others[0] + " esta digitando...");
  }

  /** The viewer's own entry is skipped, and the second other typist is counted. */
  lemma TypingMessageTwoOthers()
    ensures TypingMessage(["Bia", "Ana", "Caio"], "Bia")
         == Some("Ana" + " e mais " + "1" + " pessoa(s) estao digitando...")
  {
    SkipViewer();
    assert NatToString(1) == [DigitChar(1)] == "1";
  }

  lemma SkipViewer()
    ensures Without(["Bia", "Ana", "Caio"], "Bia") == ["Ana", "Caio"]
  {
    var users := ["Bia", "Ana", "Caio"];
    assert Without(users[2..], "Bia") == ["Caio"] by {
      assert users[2..][1..] == [];
    }
    assert users[1..][1..] == users[2..];
  }
}

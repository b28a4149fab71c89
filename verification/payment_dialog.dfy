/** The payment-method dialog of the cart sheet: three radio options, a
    phone-number field, a self-formatting card-number field, the `isValid`
    rule that enables the confirm button, and `handleConfirm`, which hands
    the chosen method and its details to the checkout. */
module PaymentDialog {
  import Text

  datatype Method = Card | Phone | Delivery

  /** The string the dialog passes on: `'card' | 'phone' | 'delivery'`. */
  function MethodName(m: Method): (name: string)
    ensures |name| > 0
  {
    match m
    case Card => "card"
    case Phone => "phone"
    case Delivery => "delivery"
  }

  lemma MethodNameInjective(m: Method, n: Method)
    ensures MethodName(m) == MethodName(n) <==> m == n
  {
  }

  /** The dialog's three pieces of state. */
  datatype Dialog = Dialog(choice: Method, cardNumber: string, phoneNumber: string)

  /** The state the dialog opens in: mobile money selected, nothing typed. */
  function Initial(): (d: Dialog)
    ensures d.choice == Phone && d.cardNumber == "" && d.phoneNumber == ""
    ensures !IsValid(d)
  {
    Dialog(Phone, "", "")
  }

  /** `isValid`: at least 16 characters in the card field (counting the
      spaces the formatter inserted), at least 9 in the phone field, and
      nothing for pay on delivery. */
  predicate IsValid(d: Dialog): (ok: bool)
    ensures d.choice == Delivery ==> ok
    ensures d.choice == Phone ==> (ok <==> |d.phoneNumber| >= 9)
    ensures d.choice == Card ==> (ok <==> |d.cardNumber| >= 16)
  {
    match d.choice
    case Card => |d.cardNumber| >= 16
    case Phone => |d.phoneNumber| >= 9
    case Delivery => true
  }

  /** The confirm button is enabled when the entry is valid and no payment is in flight. */
  predicate ConfirmEnabled(d: Dialog, processing: bool): (enabled: bool)
    ensures processing ==> !enabled
    ensures !processing ==> (enabled <==> IsValid(d))
  {
    IsValid(d) && !processing
  }

  /** `handleConfirm`: the method and the text of its own field; pay on
      delivery sends the empty string. */
  function Confirm(d: Dialog): (r: (Method, string))
    ensures r.0 == d.choice
    ensures d.choice == Card ==> r.1 == d.cardNumber
    ensures d.choice == Phone ==> r.1 == d.phoneNumber
    ensures d.choice == Delivery ==> r.1 == ""
  {
    var details :=
      if d.choice == Card then d.cardNumber
      else if d.choice == Phone then d.phoneNumber
      else "";
    (d.choice, details)
  }

  /** Choosing another radio option keeps what was typed in both fields. */
  function SelectMethod(d: Dialog, m: Method): (r: Dialog)
    ensures r.choice == m
    ensures r.cardNumber == d.cardNumber && r.phoneNumber == d.phoneNumber
  {
    d.(choice := m)
  }

  /** Typing in the phone field stores the text as typed. */
  function EnterPhone(d: Dialog, typed: string): (r: Dialog)
    ensures r.phoneNumber == typed
    ensures r.choice == d.choice && r.cardNumber == d.cardNumber
  {
    d.(phoneNumber := typed)
  }

  /** Typing in the card field stores the formatted text. */
  function EnterCard(d: Dialog, typed: string): (r: Dialog)
    ensures r.cardNumber == FormatCard(typed)
    ensures r.choice == d.choice && r.phoneNumber == d.phoneNumber
  {
    d.(cardNumber := FormatCard(typed))
  }

  // ---------------------------------------------------------------- card formatting

  /** `t.replace(/(.{4})/g, '$1 ')`: a space after every complete group of
      four characters (`.` matches everything left once whitespace is gone). */
  function GroupFours(t: string): (r: string)
    ensures |r| == |t| + |t| / 4
    decreases |t|
  {
    if |t| < 4 then t else t[..4] + " " + GroupFours(t[4..])
  }

  /** The groups of four joined by single spaces, with nothing trailing: the
      reference shape of a formatted card number. */
  function JoinGroups(t: string): (r: string)
    ensures |t| == 0 ==> |r| == 0
    ensures |t| > 0 ==> |r| == |t| + (|t| - 1) / 4
    decreases |t|
  {
    if |t| <= 4 then t else t[..4] + " " + JoinGroups(t[4..])
  }

  /** The card field's `onChange`: whitespace removed, a space after every
      four characters, then trimmed. */
  function FormatCard(typed: string): (r: string)
    ensures |r| == 0 || (!Text.IsJsSpace(r[0]) && !Text.IsJsSpace(r[|r| - 1]))
  {
    Text.Trim(GroupFours(Text.RemoveWhitespace(typed)))
  }

  /** Grouping leaves a trailing space exactly when the length is a positive multiple of four. */
  lemma {:induction false} GroupFoursJoin(t: string)
    ensures GroupFours(t) == JoinGroups(t) + (if |t| > 0 && |t| % 4 == 0 then " " else "")
    decreases |t|
  {
    if |t| > 4 {
      var head, rest := t[..4] + " ", t[4..];
      var sp := if |t| % 4 == 0 then " " else "";
      assert GroupFours(rest) == JoinGroups(rest) + sp by {
        DropGroupKeepsResidue(|t|);
        GroupFoursJoin(rest);
      }
      assert GroupFours(t) == head + GroupFours(rest);
      assert JoinGroups(t) == head + JoinGroups(rest);
      assert head + (JoinGroups(rest) + sp) == (head + JoinGroups(rest)) + sp;
    } else if |t| == 4 {
      assert t[4..] == "" && t[..4] == t;
    }
  }

  /** Dropping one group of four keeps the length's residue modulo four. */
  lemma DropGroupKeepsResidue(n: int)
    requires n > 4
    ensures n - 4 > 0 && (n - 4) % 4 == n % 4
  {
  }

  /** A non-empty joined text starts with its first and ends with its last character. */
  lemma {:induction false} JoinGroupsEnds(t: string)
    requires |t| > 0
    ensures |JoinGroups(t)| > 0
    ensures JoinGroups(t)[0] == t[0]
    ensures JoinGroups(t)[|JoinGroups(t)| - 1] == t[|t| - 1]
    decreases |t|
  {
    if |t| > 4 {
      JoinGroupsEnds(t[4..]);
    }
  }

  /** The formatter is the join of the non-whitespace characters into groups of four. */
  lemma FormatCardIsJoin(typed: string)
    ensures FormatCard(typed) == JoinGroups(Text.RemoveWhitespace(typed))
  {
    var t := Text.RemoveWhitespace(typed);
    GroupFoursJoin(t);
    if |t| > 0 {
      JoinGroupsEnds(t);
      assert !Text.IsJsSpace(t[0]) && !Text.IsJsSpace(t[|t| - 1]);
      Text.TrimOneTrailingSpace(JoinGroups(t));
    }
  }

  /** Removing whitespace undoes the join. */
  lemma {:induction false} JoinGroupsStrips(t: string)
    requires Text.NoJsSpace(t)
    ensures Text.RemoveWhitespace(JoinGroups(t)) == t
    decreases |t|
  {
    if |t| > 4 {
      var head, rest := t[..4], t[4..];
      assert Text.NoJsSpace(head) && Text.NoJsSpace(rest) by {
        assert forall i :: 0 <= i < |head| ==> head[i] == t[i];
        assert forall i :: 0 <= i < |rest| ==> rest[i] == t[i + 4];
      }
      JoinGroupsStrips(rest);
      Text.RemoveWhitespaceAroundSpace(head, JoinGroups(rest));
      assert head + rest == t;
    }
  }

  /** The formatted card number holds exactly the characters typed, whitespace aside. */
  lemma FormatCardKeepsCharacters(typed: string)
    ensures Text.RemoveWhitespace(FormatCard(typed)) == Text.RemoveWhitespace(typed)
  {
    FormatCardIsJoin(typed);
    JoinGroupsStrips(Text.RemoveWhitespace(typed));
  }

  /** Re-running the formatter on its own output (the next keystroke that
      adds nothing) changes nothing. */
  lemma FormatCardIdempotent(typed: string)
    ensures FormatCard(FormatCard(typed)) == FormatCard(typed)
  {
    FormatCardKeepsCharacters(typed);
    FormatCardIsJoin(typed);
    FormatCardIsJoin(FormatCard(typed));
  }

  /** Every fifth position of a joined text is the separating space and every
      other position holds the next character of `t`. */
  lemma {:induction false} JoinGroupsShape(t: string, i: int)
    requires Text.NoJsSpace(t)
    requires 0 <= i < |JoinGroups(t)|
    ensures i % 5 == 4 ==> JoinGroups(t)[i] == ' '
    ensures i % 5 != 4 ==> 0 <= i - i / 5 < |t| && JoinGroups(t)[i] == t[i - i / 5]
    decreases |t|
  {
    if |t| > 4 && i >= 5 {
      assert Text.NoJsSpace(t[4..]) by {
        assert forall k :: 0 <= k < |t[4..]| ==> t[4..][k] == t[k + 4];
      }
      JoinGroupsShape(t[4..], i - 5);
      assert (i - 5) % 5 == i % 5 && (i - 5) / 5 == i / 5 - 1;
    }
  }

  /** A formatted number has a space exactly at every fifth position. */
  lemma FormatCardSpaces(typed: string, i: int)
    requires 0 <= i < |FormatCard(typed)|
    ensures FormatCard(typed)[i] == ' ' <==> i % 5 == 4
  {
    var t := Text.RemoveWhitespace(typed);
    FormatCardIsJoin(typed);
    JoinGroupsShape(t, i);
    if i % 5 != 4 {
      assert !Text.IsJsSpace(t[i - i / 5]);
    }
  }

  /** The formatted length of `n` visible characters: `n` plus one space per full group before the last. */
  lemma FormatCardLength(typed: string)
    ensures var n := |Text.RemoveWhitespace(typed)|;
            |FormatCard(typed)| == if n == 0 then 0 else n + (n - 1) / 4
  {
    FormatCardIsJoin(typed);
  }

  /** Because the spaces count towards the 16, a card number is accepted from
      13 visible characters on ("1234 5678 9012 3" is 16 characters long). */
  lemma CardValidIff(d: Dialog, typed: string)
    requires d.choice == Card
    ensures IsValid(EnterCard(d, typed)) <==> |Text.RemoveWhitespace(typed)| >= 13
  {
    FormatCardLength(typed);
  }

  /** The phone field is accepted from 9 characters on, as typed, and pay on
      delivery is accepted whatever the fields hold. */
  lemma OtherMethodsValidity(d: Dialog, typed: string)
    ensures IsValid(EnterPhone(SelectMethod(d, Phone), typed)) <==> |typed| >= 9
    ensures IsValid(SelectMethod(d, Delivery))
    ensures ConfirmEnabled(SelectMethod(d, Delivery), false)
  {
  }

  /** Confirming a card payment hands over the typed characters, grouped. */
  lemma ConfirmCardDetails(d: Dialog, typed: string)
    requires d.choice == Card
    ensures Confirm(EnterCard(d, typed)).1 == JoinGroups(Text.RemoveWhitespace(typed))
    ensures Text.RemoveWhitespace(Confirm(EnterCard(d, typed)).1) == Text.RemoveWhitespace(typed)
  {
    FormatCardIsJoin(typed);
    FormatCardKeepsCharacters(typed);
  }
}

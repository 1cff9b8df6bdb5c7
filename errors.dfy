/** WaspError: the immutable error value handed to a failed request's callback. */
module Errors {
  import opened Wrappers
  import opened Text

  /** Java's 32-bit int. */
  newtype int32 = x: int | -0x8000_0000 <= x < 0x8000_0000

  /** Decimal rendering of an integer, as StringBuilder.append(int) writes it. */
  function IntToString(n: int): (s: string)
    ensures |s| > 0
    ensures s[0] == '-' <==> n < 0
  {
    if n < 0 then "-" + NatToString(-n) else NatToString(n)
  }

  function NatToString(n: nat): (s: string)
    ensures |s| > 0 && forall i :: 0 <= i < |s| ==> '0' <= s[i] <= '9'
  {
    if n < 10 then [Digit(n)] else NatToString(n / 10) + [Digit(n % 10)]
  }

  function Digit(d: nat): (c: char)
    requires d < 10
    ensures '0' <= c <= '9'
  {
    "0123456789"[d]
  }

  /** A String argument to StringBuilder.append: a null reference is written as "null". */
  function AppendText(s: Option<string>): string {
    if s.None? then "null" else s.value
  }

  const Prefix := "Wasp Error:"
  const MessageLabel := ", Message:"
  const StatusLabel := "Status Code: "
  const UrlLabel := " for "

  /** The three final fields; a None url or errorMessage is a null reference. */
  datatype WaspError = WaspError(url: Option<string>, errorMessage: Option<string>, statusCode: int32) {

    /** A null message reads as the empty string. */
    function GetErrorMessage(): (r: string)
      ensures errorMessage.None? ==> r == ""
      ensures errorMessage.Some? ==> r == errorMessage.value
    {
      if errorMessage.None? then "" else errorMessage.value
    }

    function GetStatusCode(): int32 {
      statusCode
    }

    /** The ", Message:" segment is written only for a non-null message. */
    function MessagePart(): string {
      if errorMessage.None? then "" else MessageLabel + errorMessage.value
    }

    function Tail(): string {
      StatusLabel + StatusAndUrl()
    }

    function StatusAndUrl(): string {
      IntToString(statusCode as int) + UrlLabel + AppendText(url)
    }

    function ToString(): string {
      Prefix + MessagePart() + Tail()
    }
  }

  /** The constructor keeps what it is given: the getters return it, a null message as "". */
  function NewWaspError(url: Option<string>, errorMessage: Option<string>, statusCode: int32): (e: WaspError)
    ensures e.GetStatusCode() == statusCode
    ensures e.GetErrorMessage() == (if errorMessage.None? then "" else errorMessage.value)
    ensures e.url == url && e.errorMessage == errorMessage
  {
    WaspError(url, errorMessage, statusCode)
  }

  lemma ConcatFrame(a: string, b: string, c: string)
    ensures StartsWith(a + b + c, a) && EndsWith(a + b + c, c)
    ensures (a + b + c)[|a|..] == b + c
  {
    assert (a + b + c)[..|a|] == a;
    assert (a + b + c)[|a + b|..] == c;
  }

  lemma ConcatPrefixes(x: string, y: string, z: string, w: string)
    ensures StartsWith((x + y) + (z + w), x + y + z)
    ensures StartsWith((x + y) + (z + w), x)
  {
    assert (x + y) + (z + w) == (x + y + z) + w;
    assert ((x + y + z) + w)[..|x + y + z|] == x + y + z;
    assert ((x + y) + (z + w))[..|x|] == x;
  }

  /** toString always begins with "Wasp Error:" and ends with the status code and the url. */
  lemma ToStringFrame(e: WaspError)
    ensures StartsWith(e.ToString(), "Wasp Error:")
    ensures EndsWith(e.ToString(), "Status Code: " + IntToString(e.statusCode as int) + " for " + AppendText(e.url))
  {
    ConcatFrame(Prefix, e.MessagePart(), e.Tail());
    TailText(e);
  }

  /** The tail as the builder appends it, piece after piece. */
  lemma TailText(e: WaspError)
    ensures e.Tail() == StatusLabel + IntToString(e.statusCode as int) + UrlLabel + AppendText(e.url)
  {
    var n, u := IntToString(e.statusCode as int), AppendText(e.url);
    assert StatusLabel + (n + UrlLabel + u) == (StatusLabel + n + UrlLabel) + u;
  }

  /** What follows "Wasp Error:" is the message segment and then the status and url. */
  lemma AfterPrefix(e: WaspError)
    ensures e.ToString()[|Prefix|..] == e.MessagePart() + e.Tail()
  {
    ConcatFrame(Prefix, e.MessagePart(), e.Tail());
  }

  /**
   * Right after the prefix comes ", Message:" exactly when the message is non-null;
   * with a null message the prefix runs straight into "Status Code: ".
   */
  lemma MessageSegmentIff(e: WaspError)
    ensures StartsWith(e.ToString()[|Prefix|..], ", Message:") <==> e.errorMessage.Some?
    ensures e.errorMessage.Some? ==> StartsWith(e.ToString()[|Prefix|..], ", Message:" + e.errorMessage.value + "Status Code: ")
    ensures e.errorMessage.None? ==> StartsWith(e.ToString()[|Prefix|..], "Status Code: ")
  {
    AfterPrefix(e);
    var after := e.ToString()[|Prefix|..];
    if e.errorMessage.Some? {
      assert after == (MessageLabel + e.errorMessage.value) + (StatusLabel + e.StatusAndUrl());
      ConcatPrefixes(MessageLabel, e.errorMessage.value, StatusLabel, e.StatusAndUrl());
    } else {
      assert after == StatusLabel + e.StatusAndUrl();
      assert after[..|StatusLabel|] == StatusLabel;
      assert after[0] == 'S';
    }
  }

  /**
   * For a fixed url and status code, toString tells every message apart, a null message
   * from an empty one included.
   */
  lemma ToStringDistinguishesMessages(e1: WaspError, e2: WaspError)
    requires e1.url == e2.url && e1.statusCode == e2.statusCode
    requires e1.ToString() == e2.ToString()
    ensures e1.errorMessage == e2.errorMessage
  {
    var tail := e1.Tail();
    assert e2.Tail() == tail;
    var m1, m2 := e1.MessagePart(), e2.MessagePart();
    assert Prefix + m1 + tail == Prefix + m2 + tail;
    assert |m1| == |m2|;
    assert m1 == (Prefix + m1 + tail)[|Prefix|..|Prefix| + |m1|];
    assert m2 == (Prefix + m2 + tail)[|Prefix|..|Prefix| + |m2|];
    if e1.errorMessage.Some? && e2.errorMessage.Some? {
      assert e1.errorMessage.value == m1[|MessageLabel|..];
      assert e2.errorMessage.value == m2[|MessageLabel|..];
    }
  }
}

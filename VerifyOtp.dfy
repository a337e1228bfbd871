/**
 * The one-time-code page: a buffer of six input cells edited in place by typing, pasting and
 * resending, a ten-minute countdown driven by a once-a-second tick, and the submit and resend
 * handlers with the network calls' outcomes passed in.
 */
module VerifyOtp {
  import opened Wrappers
  import opened Text
  import opened Lists

  const Cells: nat := 6
  const CodeLifetime: int := 600

  /** `cells.join('')`: empty exactly when every cell is. */
  function Join(cells: seq<string>): (r: string)
    ensures r == "" <==> forall i :: 0 <= i < |cells| ==> cells[i] == ""
  {
    if cells == [] then "" else
      assert forall i :: 1 <= i < |cells| ==> cells[1..][i - 1] == cells[i];
      cells[0] + Join(cells[1..])
  }

  /** Cells of JavaScript length at most one each join to a string whose length is one per
      cell precisely when no cell is empty. */
  lemma {:induction false} JoinFull(cells: seq<string>)
    requires forall i :: 0 <= i < |cells| ==> Utf16Length(cells[i]) <= 1
    ensures Utf16Length(Join(cells)) <= |cells|
    ensures Utf16Length(Join(cells)) == |cells| <==> forall i :: 0 <= i < |cells| ==> cells[i] != ""
  {
    if cells != [] {
      JoinFull(cells[1..]);
      assert forall i :: 1 <= i < |cells| ==> cells[i] == cells[1..][i - 1];
      Utf16LengthAppend(cells[0], Join(cells[1..]));
      ShortIsOneUnit(cells[0]);
    }
  }

  /** The pasted text with every non-digit removed (`replace(/\D/g, '')`). */
  function DigitsOnly(text: string): (d: string)
    ensures AllDigits(d) && IsSubsequence(d, text)
    ensures forall c :: c in d <==> c in text && IsDigit(c)
    ensures |d| == CountWhere(text, IsDigit)
  {
    Filter(text, IsDigit)
  }

  /** The first `n` characters of `s` (`slice(0, n)`). */
  function Prefix(s: string, n: nat): (r: string)
    ensures |r| == if |s| < n then |s| else n
    ensures r == s[..|r|]
  {
    if |s| < n then s else s[..n]
  }

  function Min(a: int, b: int): int {
    if a <= b then a else b
  }

  /** `padStart(2, '0')` on the decimal form of a number. */
  function PadTwo(s: string): (r: string)
    ensures |s| < 2 ==> r == ['0' as char] + s
    ensures |s| >= 2 ==> r == s
  {
    if |s| < 2 then "0" + s else s
  }

  /** `formatTime`: minutes, a colon, and the seconds as exactly two digits; reading the two
      numbers back gives the minutes and seconds of `seconds`. */
  function FormatTime(seconds: nat): (r: string)
    ensures |r| >= 4 && r[|r| - 3] == ':'
    ensures AllDigits(r[..|r| - 3]) && AllDigits(r[|r| - 2..])
    ensures DigitsValue(r[|r| - 2..]) < 60
    ensures DigitsValue(r[..|r| - 3]) * 60 + DigitsValue(r[|r| - 2..]) == seconds
    ensures r[..|r| - 3] == NatToString(seconds / 60)
  {
    var mins := seconds / 60;
    var secs := seconds % 60;
    var m := NatToString(mins);
    var s := PadTwo(NatToString(secs));
    var r := m + ":" + s;
    DigitsValueOfNatToString(mins);
    DigitsValueOfNatToString(secs);
    assert |NatToString(secs)| <= 2 by {
      if secs >= 10 { assert NatToString(secs) == NatToString(secs / 10) + [DigitChar(secs % 10)]; }
    }
    assert DigitsValue(s) == secs by {
      if |NatToString(secs)| < 2 {
        var t := NatToString(secs);
        assert s[..1] == "0" && s[1] == t[0];
        assert DigitsValue(s[..1]) == 0 by { assert s[..1][..0] == []; }
        assert DigitsValue(t) == DigitsValue(t[..0]) * 10 + DigitValue(t[0]);
      }
    }
    assert r[..|r| - 3] == m && r[|r| - 2..] == s;
    r
  }

  /** What a successful code check hands to the reset page: the e-mail as the page received
      it, possibly missing, and the code. */
  datatype ResetRoute = ResetRoute(path: string, email: Option<string>, otp: string)

  /** The page's state. `otp` is the input buffer; `ticking` says that the countdown interval is
      running. */
  class OtpForm {
    const otp: array<string>
    const email: Option<string>
    var timeLeft: int
    var canResend: bool
    var ticking: bool
    var error: Option<string>
    var isLoading: bool

    /** Six cells of JavaScript length at most one, a counter between 0 and 600, and at most one running
        interval: one runs only while the counter is positive and resending is not offered. */
    ghost predicate Valid()
      reads this, otp
    {
      otp.Length == Cells
      && (forall i :: 0 <= i < Cells ==> Utf16Length(otp[i]) <= 1)
      && 0 <= timeLeft <= CodeLifetime
      && (ticking ==> timeLeft >= 1 && !canResend)
    }

    ghost function Code(): seq<string>
      reads this, otp
    {
      otp[..]
    }

    /** The first render: six empty cells, ten minutes, no resend, no error. */
    constructor (email: Option<string>)
      ensures Valid() && fresh(otp) && this.email == email
      ensures Code() == ["", "", "", "", "", ""]
      ensures timeLeft == CodeLifetime && !canResend && !ticking && error == None && !isLoading
    {
      otp := new string[Cells](_ => "");
      this.email := email;
      timeLeft := CodeLifetime;
      canResend := false;
      ticking := false;
      error := None;
      isLoading := false;
      new;
      assert otp[..] == ["", "", "", "", "", ""];
    }

    /** The mount effect: without an e-mail the page sends the user back to the request form;
        with one the countdown starts. */
    method Mount() returns (redirect: Option<string>)
      requires Valid() && !ticking && !canResend && timeLeft == CodeLifetime
      modifies this
      ensures Valid()
      ensures !TruthyString(email) ==> redirect == Some("/forgot-password") && !ticking
      ensures TruthyString(email) ==> redirect == None && ticking
      ensures timeLeft == old(timeLeft) && canResend == old(canResend) && error == old(error)
      ensures isLoading == old(isLoading)
    {
      if !TruthyString(email) {
        return Some("/forgot-password");
      }
      ticking := true;
      redirect := None;
    }

    /** One second of the running interval: a counter above one goes down by one; otherwise it
        becomes zero, resending is offered and the interval stops. */
    method Tick()
      requires Valid() && ticking
      modifies this
      ensures Valid()
      ensures old(timeLeft) > 1 ==> timeLeft == old(timeLeft) - 1 && ticking && canResend == old(canResend)
      ensures old(timeLeft) <= 1 ==> timeLeft == 0 && canResend && !ticking
      ensures error == old(error) && isLoading == old(isLoading)
    {
      if timeLeft <= 1 {
        canResend := true;
        ticking := false;
        timeLeft := 0;
      } else {
        timeLeft := timeLeft - 1;
      }
    }

    /** Typing `value` into cell `index`: a value longer than one UTF-16 code unit (two
        characters, or one astral character) is refused and changes nothing; otherwise exactly
        that cell takes the value, and a non-empty value moves the focus to the next cell unless
        this was the last one. */
    method OtpChange(index: nat, value: string) returns (focus: Option<nat>)
      requires Valid() && index < Cells
      modifies otp
      ensures Valid()
      ensures Utf16Length(value) > 1 ==> Code() == old(Code()) && focus == None
      ensures Utf16Length(value) <= 1 ==> Code() == old(Code())[index := value]
      ensures focus == if Utf16Length(value) == 1 && index < Cells - 1 then Some(index + 1) else None
    {
      if Utf16Length(value) > 1 {
        return None;
      }
      otp[index] := value;
      focus := if value != "" && index < 5 then Some(index + 1) else None;
    }

    /** Pasting `text`: its digits, at most six, go into the first cells in order; the other
        cells keep what they held; the focus goes to the cell after the last written one, or
        the last cell. Digits are one UTF-16 code unit each, so the JavaScript lengths and
        slices here count characters. */
    method Paste(text: string) returns (focus: nat)
      requires Valid()
      modifies otp
      ensures Valid()
      ensures var data := Prefix(DigitsOnly(text), Cells);
              (forall i :: 0 <= i < |data| ==> otp[i] == [data[i]])
              && (forall i :: |data| <= i < Cells ==> otp[i] == old(otp[i]))
              && focus == Min(|data|, Cells - 1)
    {
      var data := Prefix(DigitsOnly(text), 6);
      Fill(data);
      focus := Min(|data|, 5);
    }

    /** The loop of the paste handler: cell `i` gets character `i` of `data`. */
    method Fill(data: string)
      requires Valid() && |data| <= Cells && AllDigits(data)
      modifies otp
      ensures Valid()
      ensures forall i :: 0 <= i < |data| ==> otp[i] == [data[i]]
      ensures forall i :: |data| <= i < Cells ==> otp[i] == old(otp[i])
    {
      var i := 0;
      while i < |data| && i < 6
        invariant 0 <= i <= |data|
        invariant forall k :: 0 <= k < i ==> otp[k] == [data[k]]
        invariant forall k :: i <= k < Cells ==> otp[k] == old(otp[k])
      {
        otp[i] := [data[i]];
        i := i + 1;
      }
    }

    /** The submit button is disabled while a check runs or while the cells do not join to a
        string of length six; in a valid state that is while some cell is empty. */
    function SubmitDisabled(): (d: bool)
      reads this, otp
      ensures Valid() ==> (d <==> isLoading || exists i :: 0 <= i < Cells && otp[i] == "")
    {
      CellsJoin(otp[..]);
      isLoading || Utf16Length(Join(otp[..])) != Cells
    }

    /** Submitting, where `verify` is the outcome of the code check if it is made. The error is
        cleared first; a code that does not join to six characters sets an error and makes no
        request. Otherwise the e-mail and code are sent: on success the reset page is opened
        with them, on failure the error shows the server's message or a fallback. */
    method Submit(verify: ApiResult<bool>) returns (sent: Option<string>, next: Option<ResetRoute>)
      requires Valid()
      modifies this
      ensures Valid() && Code() == old(Code())
      ensures isLoading == (Utf16Length(Join(Code())) != Cells && old(isLoading))
      ensures timeLeft == old(timeLeft) && canResend == old(canResend) && ticking == old(ticking)
      ensures Utf16Length(Join(Code())) != Cells ==>
                sent == None && next == None && error == Some("Please enter the complete 6-digit OTP")
      ensures Utf16Length(Join(Code())) == Cells ==> sent == Some(Join(Code()))
      ensures Utf16Length(Join(Code())) == Cells && verify.Ok? ==>
                error == None && next == Some(ResetRoute("/reset-password", email, Join(Code())))
      ensures Utf16Length(Join(Code())) == Cells && verify.Fail? ==>
                next == None && error == Some(MessageOr(verify.message, "Invalid OTP"))
    {
      error := None;
      var code := Join(otp[..]);
      if Utf16Length(code) != 6 {
        error := Some("Please enter the complete 6-digit OTP");
        return None, None;
      }
      isLoading := true;
      sent := Some(code);
      match verify {
        case Ok(_) =>
          next := Some(ResetRoute("/reset-password", email, code));
        case Fail(message) =>
          error := Some(MessageOr(message, "Invalid OTP"));
          next := None;
      }
      isLoading := false;
    }

    /** Resending, offered only once resending is allowed; `resend` is the outcome of the new
        code request. The cells are cleared, the counter is back at ten minutes and the error
        is cleared; the request carries the page's e-mail as received; a successful request
        starts the countdown again, a failed one shows the error and offers resending again. */
    method Resend(resend: ApiResult<bool>) returns (sent: Option<string>)
      requires Valid() && canResend
      modifies this, otp
      ensures sent == email
      ensures Valid()
      ensures Code() == ["", "", "", "", "", ""] && timeLeft == CodeLifetime
      ensures resend.Ok? ==> !canResend && ticking && error == None
      ensures resend.Fail? ==> canResend && !ticking && error == Some(MessageOr(resend.message, "Failed to resend OTP"))
      ensures isLoading == old(isLoading)
    {
      canResend := false;
      timeLeft := 600;
      forall i | 0 <= i < Cells {
        otp[i] := "";
      }
      error := None;
      assert !ticking;
      sent := email;
      match resend {
        case Ok(_) =>
          ticking := true;
        case Fail(message) =>
          error := Some(MessageOr(message, "Failed to resend OTP"));
          canResend := true;
      }
    }
  }

  /** With six cells of length at most one, the code is complete exactly when every cell is
      filled. */
  lemma CompleteIffFilled(cells: seq<string>)
    requires |cells| == Cells && forall i :: 0 <= i < |cells| ==> Utf16Length(cells[i]) <= 1
    ensures Utf16Length(Join(cells)) == Cells <==> forall i :: 0 <= i < Cells ==> cells[i] != ""
  {
    JoinFull(cells);
  }

  /** `CompleteIffFilled` for any list of cells, stated under its conditions. */
  lemma CellsJoin(cells: seq<string>)
    ensures |cells| == Cells && (forall i :: 0 <= i < |cells| ==> Utf16Length(cells[i]) <= 1) ==>
              (Utf16Length(Join(cells)) == Cells <==> forall i :: 0 <= i < Cells ==> cells[i] != "")
  {
    if |cells| == Cells && forall i :: 0 <= i < |cells| ==> Utf16Length(cells[i]) <= 1 {
      CompleteIffFilled(cells);
    }
  }
}

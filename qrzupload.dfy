/** How an upload to a QRZ.com logbook is judged once the HTTP exchange is
    over: the reply body `K=V&K=V...` is read into a dictionary, and the
    `STATUS` (or, failing that, `RESULT`) entry decides the upload count
    and the message handed back with the HTTP status. */
module QrzUpload {

  import opened Errors
  import opened Strings

  const NotFound := "QRZ insert result not found in reply"
  const RequestError := "URL request error"

  /** `(upload_count, status, info)`. */
  datatype UploadResult = UploadResult(count: nat, status: int, info: string)

  // ----- Reading the reply --------------------------------------------------

  /** The dictionary `data` extended by the `key=value` pieces `pieces`, in
      order: each piece is split on `=`, its first field is the key and its
      second the value; a piece without `=` raises `IndexError`. */
  function Collect(data: map<string, string>, pieces: seq<string>): Outcome<map<string, string>>
    decreases |pieces|
  {
    if pieces == [] then Ok(data)
    else
      var kv := Split(pieces[0], '=');
      if |kv| < 2 then Raised(IndexError)
      else Collect(data[kv[0] := kv[1]], pieces[1..])
  }

  /** The dictionary read from a whole reply. */
  function ReplyData(reply: string): Outcome<map<string, string>>
  {
    Collect(map[], Split(reply, '&'))
  }

  /** A piece has a second field exactly when it holds an `=`. */
  lemma {:induction false} SplitHasSecondField(s: string)
    ensures |Split(s, '=')| >= 2 <==> '=' in s
  {
    IndexOfSpec(s, '=', 0);
    match IndexOf(s, '=', 0)
    case None =>
      assert Split(s, '=') == [s];
      assert forall k :: 0 <= k < |s| ==> s[k] != '=';
    case Some(i) =>
  }

  /** Reading fails exactly when some piece holds no `=`, and then with
      `IndexError`. */
  lemma {:induction false} CollectRaises(data: map<string, string>, pieces: seq<string>)
    ensures Collect(data, pieces).Raised? <==> exists i :: 0 <= i < |pieces| && '=' !in pieces[i]
    ensures Collect(data, pieces).Raised? ==> Collect(data, pieces).error == IndexError
    decreases |pieces|
  {
    if pieces != [] {
      SplitHasSecondField(pieces[0]);
      var kv := Split(pieces[0], '=');
      if |kv| >= 2 {
        CollectRaises(data[kv[0] := kv[1]], pieces[1..]);
        if exists i :: 0 <= i < |pieces| && '=' !in pieces[i] {
          var i :| 0 <= i < |pieces| && '=' !in pieces[i];
          assert pieces[1..][i - 1] == pieces[i];
        }
        if exists i :: 0 <= i < |pieces[1..]| && '=' !in pieces[1..][i] {
          var i :| 0 <= i < |pieces[1..]| && '=' !in pieces[1..][i];
          assert pieces[i + 1] == pieces[1..][i];
        }
      }
    }
  }

  /** Reading one more piece either raises or stores that piece's value
      under its key, replacing any earlier value of the same key. */
  lemma {:induction false} CollectLast(data: map<string, string>, pieces: seq<string>, p: string)
    requires '=' in p
    ensures var kv := Split(p, '=');
      Collect(data, pieces + [p])
        == if Collect(data, pieces).Ok? then Ok(Collect(data, pieces).value[kv[0] := kv[1]])
           else Collect(data, pieces)
    decreases |pieces|
  {
    SplitHasSecondField(p);
    if pieces == [] {
      assert [p][1..] == [];
    } else {
      var kv := Split(pieces[0], '=');
      assert (pieces + [p])[1..] == pieces[1..] + [p];
      if |kv| >= 2 {
        CollectLast(data[kv[0] := kv[1]], pieces[1..], p);
      }
    }
  }

  /** The stored value is the second `=`-field of a piece: whatever follows
      a second `=` is dropped. */
  lemma {:induction false} PieceValue(data: map<string, string>, key: string, value: string, rest: seq<string>)
    requires '=' !in key && '=' !in value
    requires forall q :: q in rest ==> '=' !in q
    ensures Collect(data, [Join([key, value] + rest, '=')]) == Ok(data[key := value])
  {
    var parts := [key, value] + rest;
    assert forall q :: q in parts ==> q == key || q == value || q in rest;
    SplitJoin(parts, '=');
    assert [Join(parts, '=')][1..] == [];
  }

  // ----- The decision -------------------------------------------------------

  /** The result entry: `STATUS` when present, otherwise `RESULT`. */
  function ResultValue(data: map<string, string>): Option<string>
  {
    if "STATUS" in data then Some(data["STATUS"])
    else if "RESULT" in data then Some(data["RESULT"])
    else None
  }

  /** `info` followed by `line`, on a line of its own when `info` is not
      empty. */
  function AddLine(info: string, line: string): string
  {
    if |info| > 0 then info + "\n" + line else line
  }

  /** The message for a failed upload: the reason, and the extended reason
      on a second line when there is one. */
  function FailureInfo(reason: string, extended: string): string
  {
    var head := "Upload failed: " + reason;
    if extended != "" then head + "\n" + extended else head
  }

  /** The outcome of a reply that arrived with HTTP status 200. */
  function Judged(data: map<string, string>, info: string): Outcome<UploadResult>
  {
    match ResultValue(data)
    case None => Ok(UploadResult(0, 200, NotFound))
    case Some(res) =>
      if res == "FAIL" then
        if "REASON" !in data then Raised(KeyError("REASON"))
        else if "EXTENDED" !in data then Raised(KeyError("EXTENDED"))
        else Ok(UploadResult(0, 200, FailureInfo(data["REASON"], data["EXTENDED"])))
      else if res == "REPLACE" then
        if "LOGID" !in data then Raised(KeyError("LOGID"))
        else Ok(UploadResult(1, 200, AddLine(info, "QSO " + data["LOGID"] + " replaced")))
      else Ok(UploadResult(if res == "OK" then 1 else 0, 200, info))
  }

  /** The result of an upload whose HTTP exchange gave `status` (`None`
      when the transport reported no status), the reply body `reply` and
      the message `info`. */
  function Uploaded(status: Option<int>, reply: string, info: string): Outcome<UploadResult>
  {
    if status == Some(200) then
      match ReplyData(reply)
      case Raised(e) => Raised(e)
      case Ok(data) => Judged(data, info)
    else if status.None? then
      Ok(UploadResult(0, -999, if info == "" then RequestError else info))
    else
      Ok(UploadResult(0, status.value, info))
  }

  /** `upload` from the status check on: reads the reply into a dictionary
      piece by piece, then classifies it. */
  method Upload(status: Option<int>, reply: string, info: string) returns (r: Outcome<UploadResult>)
    ensures r == Uploaded(status, reply, info)
  {
    if status != Some(200) {
      var st := -999;
      var msg := info;
      if status.Some? {
        st := status.value;
      } else if msg == "" {
        msg := RequestError;
      }
      return Ok(UploadResult(0, st, msg));
    }
    var pieces := Split(reply, '&');
    var data: map<string, string> := map[];
    for i := 0 to |pieces|
      invariant Collect(data, pieces[i..]) == ReplyData(reply)
    {
      var kv := Split(pieces[i], '=');
      if |kv| < 2 {
        return Raised(IndexError);
      }
      data := data[kv[0] := kv[1]];
      assert pieces[i..][1..] == pieces[i + 1..];
    }
    assert ReplyData(reply) == Ok(data);
    r := Classify(data, info);
  }

  /** The checks on the reply dictionary, in the order `upload` makes
      them. */
  method Classify(data: map<string, string>, info: string) returns (r: Outcome<UploadResult>)
    ensures r == Judged(data, info)
  {
    var count := 0;
    var msg := info;
    var result := "";
    if "STATUS" in data || "RESULT" in data {
      result := if "STATUS" in data then data["STATUS"] else data["RESULT"];
      if result == "FAIL" {
        if "REASON" !in data {
          return Raised(KeyError("REASON"));
        }
        msg := "Upload failed: " + data["REASON"];
        if "EXTENDED" !in data {
          return Raised(KeyError("EXTENDED"));
        }
        if data["EXTENDED"] != "" {
          msg := msg + "\n" + data["EXTENDED"];
        }
      } else if result == "OK" || result == "REPLACE" {
        count := 1;
      }
    } else {
      msg := NotFound;
    }
    if result == "REPLACE" {
      if "LOGID" !in data {
        return Raised(KeyError("LOGID"));
      }
      var line := "QSO " + data["LOGID"] + " replaced";
      if |msg| > 0 {
        msg := msg + "\n";
      } else {
        assert msg + line == line;
      }
      msg := msg + line;
    }
    return Ok(UploadResult(count, 200, msg));
  }

  // ----- Properties of the decision -----------------------------------------

  /** At most one QSO is counted, and one is counted exactly when the
      status is 200 and the result entry is `OK` or `REPLACE`. */
  lemma {:induction false} CountIsZeroOrOne(status: Option<int>, reply: string, info: string)
    requires Uploaded(status, reply, info).Ok?
    ensures var r := Uploaded(status, reply, info).value;
      r.count <= 1
      && (r.count == 1 <==>
            (status == Some(200) && ResultValue(ReplyData(reply).value) in {Some("OK"), Some("REPLACE")}))
  {
  }

  /** A `STATUS` entry takes precedence: with one present, the `RESULT`
      entry makes no difference. */
  lemma {:induction false} StatusTakesPrecedence(data: map<string, string>, info: string, other: string)
    requires "STATUS" in data
    ensures Judged(data["RESULT" := other], info) == Judged(data, info)
  {
    var d := data["RESULT" := other];
    assert ResultValue(d) == ResultValue(data);
    assert "REASON" in d <==> "REASON" in data;
    assert "EXTENDED" in d <==> "EXTENDED" in data;
    assert "LOGID" in d <==> "LOGID" in data;
  }

  /** Without `STATUS` or `RESULT` nothing is counted and the message says
      so, whatever else the reply holds. */
  lemma {:induction false} NoResultEntry(data: map<string, string>, info: string)
    requires "STATUS" !in data && "RESULT" !in data
    ensures Judged(data, info) == Ok(UploadResult(0, 200, NotFound))
  {
  }

  /** `FAIL` counts nothing and reports the reason, followed by the
      extended reason when that is not empty; either entry missing
      raises `KeyError`. */
  lemma {:induction false} FailureReported(data: map<string, string>, info: string)
    requires ResultValue(data) == Some("FAIL")
    ensures "REASON" !in data ==> Judged(data, info) == Raised(KeyError("REASON"))
    ensures "REASON" in data && "EXTENDED" !in data
      ==> Judged(data, info) == Raised(KeyError("EXTENDED"))
    ensures "REASON" in data && "EXTENDED" in data ==>
      var r := Judged(data, info);
      r.Ok? && r.value.count == 0
      && r.value.info == "Upload failed: " + data["REASON"]
                         + (if data["EXTENDED"] != "" then "\n" + data["EXTENDED"] else "")
  {
  }

  /** `REPLACE` counts the QSO and appends a line naming the replaced log
      entry, on a line of its own after any earlier message. */
  lemma {:induction false} ReplaceReported(data: map<string, string>, info: string)
    requires ResultValue(data) == Some("REPLACE")
    ensures "LOGID" !in data ==> Judged(data, info) == Raised(KeyError("LOGID"))
    ensures "LOGID" in data ==>
      var r := Judged(data, info);
      var line := "QSO " + data["LOGID"] + " replaced";
      r.Ok? && r.value.count == 1
      && r.value.info == (if info != "" then info + "\n" else "") + line
  {
  }

  /** Away from status 200 the reply is not read, nothing is counted, and a
      missing status becomes -999 with a message if there was none. */
  lemma {:induction false} Non200Passes(status: Option<int>, reply: string, info: string)
    requires status != Some(200)
    ensures var r := Uploaded(status, reply, info);
      r.Ok? && r.value.count == 0
      && r.value.status == (if status.Some? then status.value else -999)
      && r.value.info == (if status.None? && info == "" then RequestError else info)
  {
  }

  /** An upload raises only on status 200: `IndexError` exactly when some
      `&`-piece of the reply holds no `=` (an empty reply among them), and
      otherwise only `KeyError` for an entry the result calls for. */
  lemma {:induction false} UploadRaises(status: Option<int>, reply: string, info: string)
    ensures Uploaded(status, reply, info).Raised? ==> status == Some(200)
    ensures status == Some(200) ==>
      (ReplyData(reply).Raised? <==>
         exists i :: 0 <= i < |Split(reply, '&')| && '=' !in Split(reply, '&')[i])
    ensures Uploaded(status, reply, info).Raised? ==>
      Uploaded(status, reply, info).error in {IndexError, KeyError("REASON"), KeyError("EXTENDED"), KeyError("LOGID")}
  {
    CollectRaises(map[], Split(reply, '&'));
    assert ReplyData(reply) == Collect(map[], Split(reply, '&'));
    if status == Some(200) && ReplyData(reply).Ok? {
      var data := ReplyData(reply).value;
      assert Uploaded(status, reply, info) == Judged(data, info);
    }
  }

  /** An empty reply body raises `IndexError`. */
  lemma {:induction false} EmptyReplyRaises(info: string)
    ensures Uploaded(Some(200), "", info) == Raised(IndexError)
  {
    assert Split("", '&') == [""];
    assert Split("", '=') == [""];
  }
}

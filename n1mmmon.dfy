/** The conversion of an N1MM+ contact broadcast (an XML fragment) into the
    fields of an ADIF record: the band names, the per-node text lookup, and
    which ADIF fields a contact yields and when it counts as complete. */
module N1mmMon {

  import opened Errors
  import opened Strings
  import opened XmlNode
  import opened StrUtils

  // ----- Bands ---------------------------------------------------------------

  /** `convert_band`: an N1MM+ band (the band's lower edge in MHz) to an
      ADIF band name; anything unlisted maps to the empty string. */
  function ConvertBand(band: string): string
  {
    if band == "1.8" then "160m"
    else if band == "3.5" then "80m"
    else if band == "7" then "40m"
    else if band == "10" then "30m"
    else if band == "14" then "20m"
    else if band == "18" then "17m"
    else if band == "21" then "15m"
    else if band == "24" then "12m"
    else if band == "28" then "10m"
    else if band == "50" then "6m"
    else if band == "144" then "2m"
    else if band == "420" then "70cm"
    else ""
  }

  /** The band plan `convert_band` knows, as a table. */
  const BandPlan: map<string, string> := map[
    "1.8" := "160m", "3.5" := "80m", "7" := "40m", "10" := "30m",
    "14" := "20m", "18" := "17m", "21" := "15m", "24" := "12m",
    "28" := "10m", "50" := "6m", "144" := "2m", "420" := "70cm"]

  /** `convert_band` is a lookup in the band plan by exact string equality:
      a listed band gets its ADIF name, which is never empty, and every
      other string gets the empty string. */
  lemma {:induction false} ConvertBandIsLookup(band: string)
    ensures band in BandPlan ==> ConvertBand(band) == BandPlan[band] && ConvertBand(band) != ""
    ensures band !in BandPlan ==> ConvertBand(band) == ""
  {
  }

  // ----- Node text -----------------------------------------------------------

  /** The stripped text of the first `node` element in `x`, or the empty
      string when there is none. */
  function TextIn(node: string, x: string): string
  {
    match Find(node, x)
    case None => ""
    case Some(n) => n.text
  }

  /** `getxml(node, xml_in)`: whether the node was found with non-empty
      text, and that text. */
  method GetXml(node: string, x: string) returns (found: bool, text: string)
    requires IsLiteralName(node)
    ensures text == TextIn(node, x)
    ensures found <==> text != ""
  {
    found := false;
    text := "";
    var xml := new XmlNode();
    var present := xml.Parse(node, x);
    if present {
      text := xml.NodeText();
      if |text| > 0 {
        found := true;
      }
    }
  }

  /** The text `getxml` hands back is already stripped, and a reported
      text means the element is present in the message. */
  lemma {:induction false} TextInIsStripped(node: string, x: string)
    ensures Strip(TextIn(node, x)) == TextIn(node, x)
    ensures TextIn(node, x) != "" ==> Find(node, x).Some?
  {
    match Find(node, x)
    case None =>
    case Some(n) =>
      var m := FindMatch(node, x).value;
      StripIdempotent(x[m.gt + 1..m.close]);
  }

  // ----- The ADIF record -----------------------------------------------------

  /** The ADIF fields `xml2adif` can set (the frequency fields aside). */
  datatype Field =
    | Call | Band | Mode | QsoDate | TimeOn
    | RstRcvd | RstSent | Gridsquare | Operator | StationCallsign | Comment

  /** The field's name in an ADIF record. */
  function FieldName(f: Field): string
  {
    match f
    case Call => "CALL"
    case Band => "BAND"
    case Mode => "MODE"
    case QsoDate => "QSO_DATE"
    case TimeOn => "TIME_ON"
    case RstRcvd => "RST_RCVD"
    case RstSent => "RST_SENT"
    case Gridsquare => "GRIDSQUARE"
    case Operator => "OPERATOR"
    case StationCallsign => "STATION_CALLSIGN"
    case Comment => "COMMENT"
  }

  /** No two fields share a name, so the record can be keyed by names. */
  lemma {:induction false} FieldNamesDistinct(f: Field, g: Field)
    requires FieldName(f) == FieldName(g)
    ensures f == g
  {
  }

  /** The XML element a field is copied from unchanged, for the fields
      that are copied. */
  function CopiedFrom(f: Field): Option<string>
  {
    match f
    case Call => Some("call")
    case Mode => Some("mode")
    case RstRcvd => Some("rcv")
    case RstSent => Some("snt")
    case Gridsquare => Some("gridsquare")
    case Operator => Some("mycall")
    case StationCallsign => Some("stationprefix")
    case Comment => Some("comment")
    case _ => None
  }

  /** The value `xml2adif` gives field `f` for message `x`, if it sets the
      field at all. */
  function AdifField(f: Field, x: string): Option<string>
  {
    match f
    case Band =>
      var b := ConvertBand(TextIn("band", x));
      if b != "" then Some(b) else None
    case QsoDate =>
      var t := TextIn("timestamp", x);
      if t != "" then Some(UnformatDate(Slice(t, 0, 10))) else None
    case TimeOn =>
      var t := TextIn("timestamp", x);
      if t != "" then Some(UnformatTime(SliceFrom(t, 11))) else None
    case _ =>
      var t := TextIn(CopiedFrom(f).value, x);
      if t != "" then Some(t) else None
  }

  /** All the fields, in the order `xml2adif` handles them. */
  const AllFields: set<Field> :=
    {Call} + {Band} + {Mode} + {QsoDate, TimeOn} + {RstRcvd} + {RstSent} + {Gridsquare}
    + {Operator} + {StationCallsign} + {Comment}

  /** The fields among `done` that the contact `x` sets, with their
      values: the record once `xml2adif` has handled those fields. */
  function Part(x: string, done: set<Field>): map<Field, string>
  {
    map f | f in done && AdifField(f, x).Some? :: AdifField(f, x).value
  }

  /** The record `xml2adif` builds from `x`: every field the contact sets. */
  function AdifRecord(x: string): map<Field, string>
  {
    Part(x, AllFields)
  }

  /** A contact is complete when it names a call, a known band, a mode and
      a timestamp. */
  predicate Complete(x: string)
  {
    TextIn("call", x) != "" && ConvertBand(TextIn("band", x)) != ""
    && TextIn("mode", x) != "" && TextIn("timestamp", x) != ""
  }

  /** The element names `xml2adif` searches for hold no regular-expression
      metacharacter. */
  lemma {:induction false} ContactNamesAreLiteral()
    ensures forall f :: CopiedFrom(f).Some? ==> IsLiteralName(CopiedFrom(f).value)
    ensures IsLiteralName("band") && IsLiteralName("timestamp")
  {
    forall f | CopiedFrom(f).Some? ensures IsLiteralName(CopiedFrom(f).value) {
      CopiedNameIsLiteral(f);
    }
    WordNameIsLiteral("band");
    WordNameIsLiteral("timestamp");
  }

  lemma {:induction false} CopiedNameIsLiteral(f: Field)
    requires CopiedFrom(f).Some?
    ensures IsLiteralName(CopiedFrom(f).value)
  {
    WordNameIsLiteral(CopiedFrom(f).value);
  }

  /** `xml2adif` without the frequency fields: the contact's ADIF fields
      and whether the contact is complete. */
  method Xml2Adif(x: string) returns (status: bool, record: map<Field, string>)
    ensures status == Complete(x)
    ensures record == AdifRecord(x)
  {
    // The proof needs what each step sets, never how the text is found.
    hide TextIn;
    record := map[];
    assert record == Part(x, {});
    var callFound, bandFound, modeFound, timestampFound, found;
    callFound, record := CopyField(Call, x, record, {});
    assert {} + {Call} == {Call};
    ghost var done: set<Field> := {Call};
    bandFound, record := SetBand(x, record, done);
    done := done + {Band};
    modeFound, record := CopyField(Mode, x, record, done);
    done := done + {Mode};
    timestampFound, record := SetTimestamp(x, record, done);
    done := done + {QsoDate, TimeOn};
    found, record := CopyField(RstRcvd, x, record, done);
    done := done + {RstRcvd};
    found, record := CopyField(RstSent, x, record, done);
    done := done + {RstSent};
    found, record := CopyField(Gridsquare, x, record, done);
    done := done + {Gridsquare};
    found, record := CopyField(Operator, x, record, done);
    done := done + {Operator};
    found, record := CopyField(StationCallsign, x, record, done);
    done := done + {StationCallsign};
    found, record := CopyField(Comment, x, record, done);
    done := done + {Comment};
    assert done == AllFields;
    status := callFound && bandFound && modeFound && timestampFound;
  }

  /** Handling one more field: the record gains that field exactly when
      the contact sets it. */
  lemma {:induction false} PartStep(x: string, done: set<Field>, f: Field)
    ensures AdifField(f, x).None? ==> Part(x, done + {f}) == Part(x, done)
    ensures AdifField(f, x).Some? ==> Part(x, done + {f}) == Part(x, done)[f := AdifField(f, x).value]
  {
    hide TextIn;
  }

  /** One `getxml` and `set_field` pair: a copied field takes the text of
      its element when that text is not empty. */
  method CopyField(f: Field, x: string, before: map<Field, string>, ghost done: set<Field>)
    returns (found: bool, record: map<Field, string>)
    requires CopiedFrom(f).Some?
    requires before == Part(x, done)
    ensures found <==> TextIn(CopiedFrom(f).value, x) != ""
    ensures record == Part(x, done + {f})
  {
    hide TextIn;
    CopiedNameIsLiteral(f);
    PartStep(x, done, f);
    var text;
    found, text := GetXml(CopiedFrom(f).value, x);
    record := before;
    if found {
      record := record[f := text];
    }
  }

  /** The band: set only when `convert_band` knows it; an unknown band
      counts as not found. */
  method SetBand(x: string, before: map<Field, string>, ghost done: set<Field>)
    returns (found: bool, record: map<Field, string>)
    requires before == Part(x, done)
    ensures found <==> ConvertBand(TextIn("band", x)) != ""
    ensures record == Part(x, done + {Band})
  {
    hide TextIn;
    WordNameIsLiteral("band");
    PartStep(x, done, Band);
    var text;
    found, text := GetXml("band", x);
    record := before;
    if found {
      var band := ConvertBand(text);
      if |band| > 0 {
        record := record[Band := band];
      } else {
        found := false;
      }
    }
  }

  /** The timestamp `YYYY-MM-DD HH:MM:SS`: the date part unformatted into
      `QSO_DATE`, the time part into `TIME_ON`. */
  method SetTimestamp(x: string, before: map<Field, string>, ghost done: set<Field>)
    returns (found: bool, record: map<Field, string>)
    requires before == Part(x, done)
    ensures found <==> TextIn("timestamp", x) != ""
    ensures record == Part(x, done + {QsoDate, TimeOn})
  {
    hide TextIn;
    WordNameIsLiteral("timestamp");
    PartStep(x, done, QsoDate);
    PartStep(x, done + {QsoDate}, TimeOn);
    assert done + {QsoDate} + {TimeOn} == done + {QsoDate, TimeOn};
    var text;
    found, text := GetXml("timestamp", x);
    record := before;
    if found {
      record := record[QsoDate := UnformatDate(Slice(text, 0, 10))];
      record := record[TimeOn := UnformatTime(SliceFrom(text, 11))];
    }
  }

  // ----- Properties of the conversion ----------------------------------------

  /** The record as `set_field` fills it, keyed by the ADIF field names. */
  function AdifNamed(x: string): map<string, string>
  {
    assert forall f: Field, g: Field :: FieldName(f) == FieldName(g) ==> f == g by {
      forall f: Field, g: Field | FieldName(f) == FieldName(g) ensures f == g {
        FieldNamesDistinct(f, g);
      }
    }
    map f | f in AdifRecord(x) :: FieldName(f) := AdifRecord(x)[f]
  }


  /** The record holds a field exactly when the contact sets it. */
  lemma {:induction false} InRecord(x: string, f: Field)
    ensures f in AdifRecord(x) <==> AdifField(f, x).Some?
    ensures f in AdifRecord(x) ==> AdifRecord(x)[f] == AdifField(f, x).value
  {
    hide TextIn;
    assert f in AllFields;
  }

  /** Under its ADIF name, the record holds a field exactly when the
      contact sets it, with that value. */
  lemma {:induction false} NamedRecord(x: string, f: Field)
    ensures FieldName(f) in AdifNamed(x) <==> AdifField(f, x).Some?
    ensures FieldName(f) in AdifNamed(x) ==> AdifNamed(x)[FieldName(f)] == AdifField(f, x).value
  {
    hide TextIn;
    hide AdifRecord;
    hide AdifField;
    InRecord(x, f);
    if f in AdifRecord(x) {
      assert FieldName(f) in AdifNamed(x);
    }
    if FieldName(f) in AdifNamed(x) {
      var g :| g in AdifRecord(x) && FieldName(g) == FieldName(f);
      FieldNamesDistinct(f, g);
      assert AdifNamed(x)[FieldName(f)] == AdifRecord(x)[f];
    }
  }

  /** Every name in the record is the name of a field the contact sets. */
  lemma {:induction false} NamedRecordKeys(x: string, n: string)
    requires n in AdifNamed(x)
    ensures exists f :: FieldName(f) == n && AdifField(f, x) == Some(AdifNamed(x)[n])
  {
    hide TextIn;
    hide AdifRecord;
    hide AdifField;
    hide FieldName;
    var f :| f in AdifRecord(x) && FieldName(f) == n;
    NamedRecord(x, f);
  }

  /** A contact is complete exactly when its record has a call, a band, a
      mode, a date and a time. */
  lemma {:induction false} CompleteIffCoreFields(x: string)
    ensures var r := AdifRecord(x);
      Complete(x) <==> Call in r && Band in r && Mode in r && QsoDate in r && TimeOn in r
  {
    hide TextIn;
    InRecord(x, Call);
    InRecord(x, Band);
    InRecord(x, Mode);
    InRecord(x, QsoDate);
    InRecord(x, TimeOn);
  }

  /** An unknown band leaves the record without a band and the contact
      incomplete, whatever else it holds; a known one is an ADIF band. */
  lemma {:induction false} BandFromPlan(x: string)
    ensures TextIn("band", x) !in BandPlan ==> Band !in AdifRecord(x) && !Complete(x)
    ensures Band in AdifRecord(x) ==> AdifRecord(x)[Band] in BandPlan.Values
  {
    hide TextIn;
    var t := TextIn("band", x);
    ConvertBandIsLookup(t);
    InRecord(x, Band);
    if Band in AdifRecord(x) {
      assert t in BandPlan && BandPlan[t] == AdifRecord(x)[Band];
    }
  }

  /** From an N1MM+ timestamp `YYYY-MM-DD HH:MM:SS` the record gets the date
      and the time without separators: formatting them again gives back
      the two halves of the timestamp. */
  lemma {:induction false} TimestampFields(x: string)
    requires var t := TextIn("timestamp", x);
      |t| == 19 && IsDashedDate(t[..10]) && IsColonTime(t[11..])
    ensures var t := TextIn("timestamp", x);
      QsoDate in AdifRecord(x) && TimeOn in AdifRecord(x)
      && FormatDate(AdifRecord(x)[QsoDate]) == t[..10]
      && FormatTime(AdifRecord(x)[TimeOn]) == t[11..]
  {
    hide TextIn;
    var t := TextIn("timestamp", x);
    assert Slice(t, 0, 10) == t[..10];
    assert SliceFrom(t, 11) == t[11..];
    FormatUnformatDate(t[..10]);
    FormatUnformatTime(t[11..]);
    InRecord(x, QsoDate);
    InRecord(x, TimeOn);
  }

  /** Copied fields carry the element's text as `getxml` returns it:
      stripped and non-empty. */
  lemma {:induction false} CopiedFieldsAreStripped(x: string, f: Field)
    requires CopiedFrom(f).Some? && f in AdifRecord(x)
    ensures AdifRecord(x)[f] != "" && Strip(AdifRecord(x)[f]) == AdifRecord(x)[f]
  {
    hide TextIn;
    TextInIsStripped(CopiedFrom(f).value, x);
    InRecord(x, f);
  }
}

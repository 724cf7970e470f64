/**
  `nombre_carpeta`: the five fields derived from a date and their substitution
  into the folder-name template.
 */
module FolderNaming {
  import opened Wrappers
  import opened Decimal
  import opened Calendar
  import opened FormatString

  /** `WEEKDAYS_ES`, indexed by `date.weekday()` (Monday is 0). */
  const WeekdaysEs: seq<string> := ["Lunes", "Martes", "Miércoles", "Jueves", "Viernes", "Sábado", "Domingo"]

  /** The `--format` default. */
  const DefaultTemplate: string := "{iso}_{weekday}"

  /** The placeholder names the template may use. */
  const FieldNames: set<string> := {"iso", "dd", "mm", "yyyy", "weekday"}

  /** `WEEKDAYS_ES[fecha.weekday()]`; the index is always inside the table. */
  function WeekdayName(d: Date): (name: string)
    requires Valid(d)
    ensures name in WeekdaysEs
  {
    WeekdaysEs[Weekday(d)]
  }

  /** The keyword arguments that `nombre_carpeta` passes to `format`. */
  function FolderFields(d: Date): (fields: map<string, string>)
    requires Valid(d)
    ensures fields.Keys == FieldNames
  {
    map[
      "iso" := IsoFormat(d),
      "dd" := ShowPadded(d.day, 2),
      "mm" := ShowPadded(d.month, 2),
      "yyyy" := Show(d.year),
      "weekday" := WeekdayName(d)
    ]
  }

  /**
    `nombre_carpeta(fecha, fmt)`: the template with the date's fields
    substituted. A `KeyError` names a placeholder outside the five fields.
   */
  function FolderName(d: Date, template: string): (r: Result<string, FormatError>)
    requires Valid(d)
    ensures r.Failure? && r.error.UnknownField? ==> r.error.name !in FieldNames
  {
    Format(template, FolderFields(d))
  }

  /**
    The fields have the promised shapes: `iso` is `YYYY-MM-DD` and reads back
    as the date, `dd` and `mm` are two digits, `yyyy` is the year without
    padding, and `weekday` is the table entry of the date's weekday.
   */
  lemma FieldShapes(d: Date)
    requires Valid(d)
    ensures var f := FolderFields(d);
      && |f["iso"]| == 10 && f["iso"][4] == '-' && f["iso"][7] == '-'
      && |f["dd"]| == 2 && AllDigits(f["dd"]) && DigitsValue(f["dd"]) == d.day
      && |f["mm"]| == 2 && AllDigits(f["mm"]) && DigitsValue(f["mm"]) == d.month
      && AllDigits(f["yyyy"]) && DigitsValue(f["yyyy"]) == d.year && f["yyyy"][0] != '0'
      && f["weekday"] == WeekdaysEs[Weekday(d)]
  {
    FieldValues(d);
    var dd, mm := ShowPadded(d.day, 2), ShowPadded(d.month, 2);
    assert |dd| == 2 && AllDigits(dd) && DigitsValue(dd) == d.day by { ShowPaddedWidth(d.day, 2); }
    assert |mm| == 2 && AllDigits(mm) && DigitsValue(mm) == d.month by { ShowPaddedWidth(d.month, 2); }
    var yyyy := Show(d.year);
    assert AllDigits(yyyy) && DigitsValue(yyyy) == d.year && yyyy[0] != '0';
  }

  /** Where each field comes from. */
  lemma FieldValues(d: Date)
    requires Valid(d)
    ensures var f := FolderFields(d);
      && f["iso"] == IsoFormat(d) && f["dd"] == ShowPadded(d.day, 2) && f["mm"] == ShowPadded(d.month, 2)
      && f["yyyy"] == Show(d.year) && f["weekday"] == WeekdayName(d)
  {
  }

  /** The `iso` and `yyyy` fields spell the year differently exactly when it is below 1000. */
  lemma YearFieldsDiffer(d: Date)
    requires Valid(d)
    ensures FolderFields(d)["yyyy"] == FolderFields(d)["iso"][..4] <==> d.year >= 1000
  {
    var f := FolderFields(d);
    ShowWidth(d.year, 4);
    if d.year >= 1000 {
      ShowWidth(d.year, 3);
      assert |Show(d.year)| == 4;
      assert f["iso"][..4] == ShowPadded(d.year, 4);
    } else {
      ShowWidth(d.year, 3);
      assert |f["yyyy"]| < 4;
    }
  }

  /** A template naming anything but the five fields fails instead of producing a name. */
  lemma UnknownPlaceholderFails(d: Date, before: string, name: string, after: string)
    requires Valid(d) && FolderName(d, before).Success?
    requires IsFieldName(name) && name !in FieldNames
    ensures FolderName(d, before + "{" + name + "}" + after) == Failure(UnknownField(name))
  {
    FormatUnknownFieldFails(before, name, after, FolderFields(d));
  }

  /** Whether a template works does not depend on the date it is applied to. */
  lemma FolderNameOutcomeIgnoresDate(d: Date, e: Date, template: string)
    requires Valid(d) && Valid(e)
    ensures FolderName(d, template).Success? <==> FolderName(e, template).Success?
    ensures FolderName(d, template).Failure? ==> FolderName(d, template) == FolderName(e, template)
  {
    FormatOutcomeIgnoresValues(template, FolderFields(d), FolderFields(e));
  }

  /** The default template gives the ISO date, an underscore and the Spanish weekday name. */
  lemma DefaultTemplateShape(d: Date)
    requires Valid(d)
    ensures FolderName(d, DefaultTemplate) == Success(IsoFormat(d) + "_" + WeekdayName(d))
  {
    IsoThenWeekday(FolderFields(d));
  }

  /** The default template on the default start date. */
  lemma DefaultTemplateExample(d: Date)
    requires d == Date(2025, 9, 8)
    ensures FolderName(d, DefaultTemplate) == Success("2025-09-08_Lunes")
  {
    assert "2025-09-08" + "_" + "Lunes" == "2025-09-08_Lunes";
    DefaultTemplateShape(d);
    IsoExample(d);
    MondayExample(d);
  }

  lemma IsoThenWeekday(f: map<string, string>)
    requires "iso" in f && "weekday" in f
    ensures Format(DefaultTemplate, f) == Success(f["iso"] + "_" + f["weekday"])
  {
    DefaultTemplateSplit();
    FormatTwoFields("iso", "_", "weekday", f);
  }

  lemma MondayExample(d: Date)
    requires d == Date(2025, 9, 8)
    ensures WeekdayName(d) == "Lunes"
  {
    WeekdayExamples();
  }

  lemma IsoExample(d: Date)
    requires d == Date(2025, 9, 8)
    ensures IsoFormat(d) == "2025-09-08"
  {
    var s := IsoFormat(d);
    DigitsValueShort(s[..4]);
    DigitsValueShort(s[5..7]);
    DigitsValueShort(s[8..]);
  }

  /** `{dd}-{mm}-{yyyy}` on 2025-01-05: day, month and unpadded year. */
  lemma DayMonthYearExample(d: Date)
    requires d == Date(2025, 1, 5)
    ensures FolderName(d, "{dd}-{mm}-{yyyy}") == Success("05-01-2025")
  {
    assert "05" + "-" + "01" + "-" + "2025" == "05-01-2025";
    var f := FolderFields(d);
    DayMonthYear(f);
    DayMonthYearFields(d);
  }

  lemma DayMonthYearFields(d: Date)
    requires d == Date(2025, 1, 5)
    ensures FolderFields(d)["dd"] == "05" && FolderFields(d)["mm"] == "01" && FolderFields(d)["yyyy"] == "2025"
  {
    var f := FolderFields(d);
    FieldShapes(d);
    DigitsValueShort(f["dd"]);
    DigitsValueShort(f["mm"]);
    var y := f["yyyy"];
    ShowWidth(2025, 4);
    ShowWidth(2025, 3);
    DigitsValueShort(y);
  }

  lemma DayMonthYear(f: map<string, string>)
    requires "dd" in f && "mm" in f && "yyyy" in f
    ensures Format("{dd}-{mm}-{yyyy}", f) == Success(f["dd"] + "-" + f["mm"] + "-" + f["yyyy"])
  {
    var dd, mm, yyyy := f["dd"], f["mm"], f["yyyy"];
    assert dd + ("-" + (mm + "-" + yyyy)) == dd + "-" + mm + "-" + yyyy;
    DayMonthYearSplit();
    DayMonthYearTail(f);
    FormatFieldTextThen("dd", "-", "{mm}-{yyyy}", f);
  }

  lemma DayMonthYearTail(f: map<string, string>)
    requires "mm" in f && "yyyy" in f
    ensures Format("{mm}-{yyyy}", f) == Success(f["mm"] + "-" + f["yyyy"])
  {
    MonthYearSplit();
    FormatTwoFields("mm", "-", "yyyy", f);
  }

  lemma DefaultTemplateSplit()
    ensures DefaultTemplate == "{" + "iso" + "}" + "_" + "{" + "weekday" + "}"
  {
  }

  lemma DayMonthYearSplit()
    ensures "{dd}-{mm}-{yyyy}" == "{" + "dd" + "}" + ("-" + "{mm}-{yyyy}")
  {
  }

  lemma MonthYearSplit()
    ensures "{mm}-{yyyy}" == "{" + "mm" + "}" + "-" + "{" + "yyyy" + "}"
  {
  }
}

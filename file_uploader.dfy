/**
 * The custom-print uploader: which file names it accepts, the print-quality
 * price multipliers, and the selected file / estimated price state that the
 * upload, re-pricing and add-to-cart handlers read and write.
 */
module FileUploader {
  import opened Wrappers
  import opened Strings

  /** One print-quality choice; the multiplier scales the base price. Its name and description are display text and are not modelled. */
  datatype QualityOption = QualityOption(id: string, priceMultiplier: real)

  /** The five print qualities, in the order the page lists them. */
  function PrintQualityOptions(): seq<QualityOption>
  {
    [ QualityOption("standard", 1.0),
      QualityOption("medium", 1.3),
      QualityOption("high", 1.6),
      QualityOption("standard-plus", 1.2),
      QualityOption("large-nozzle", 0.9) ]
  }

  /** The file types the uploader takes, as lower-case extensions. */
  function SupportedFormats(): seq<string>
  {
    ["stl", "obj", "stp", "step", "igs", "iges"]
  }

  // ---- the file-type check ----

  /** `name.split('.').pop().toLowerCase()`: the lower-cased text after the last dot. */
  function Extension(name: string): (ext: string)
    ensures |ext| <= |name|
    ensures '.' !in ext
  {
    var last := Last(Split(name, '.'));
    SplitLast(name, '.');
    assert forall i :: 0 <= i < |last| ==> LowerString(last)[i] != '.';
    LowerString(last)
  }

  /**
   * A file is taken when its extension is non-empty and one of the supported
   * formats; the non-empty test is implied by the format test.
   */
  function IsSupported(name: string): (ok: bool)
    ensures ok <==> Extension(name) in SupportedFormats()
    ensures ok ==> 3 <= |Extension(name)| <= 4
  {
    var ext := Extension(name);
    ext != "" && ext in SupportedFormats()
  }

  /**
   * The extension is the lower-cased text after the last dot; a name without
   * a dot is its own extension.
   */
  lemma ExtensionAfterLastDot(name: string)
    ensures '.' !in name ==> Extension(name) == LowerString(name)
    ensures '.' in name ==>
              var k := |name| - |Extension(name)| - 1;
              0 <= k && name[k] == '.' && '.' !in name[k + 1..] && Extension(name) == LowerString(name[k + 1..])
  {
    SplitLast(name, '.');
  }

  /** Whatever comes before the last dot, the extension is the lower-cased text after it. */
  lemma ExtensionOf(stem: string, e: string)
    requires '.' !in e
    ensures Extension(stem + "." + e) == LowerString(e)
  {
    var name := stem + "." + e;
    var k := |stem|;
    assert name[k] == '.' && name[k + 1..] == e;
    ExtensionAfterLastDot(name);
  }

  /** The check ignores case: a supported extension in capitals is accepted. */
  lemma CaseInsensitive(stem: string, e: string)
    requires '.' !in e
    ensures IsSupported(stem + "." + e) <==> LowerString(e) in SupportedFormats()
  {
    ExtensionOf(stem, e);
  }

  /** "PART.STL" is accepted. */
  lemma AcceptsUpperCase()
    ensures IsSupported("PART.STL")
  {
    assert "PART.STL" == "PART" + "." + "STL";
    ExtensionOf("PART", "STL");
    assert LowerString("STL") == "stl";
  }

  /** "model.gcode" is refused. */
  lemma RefusesOtherFormats()
    ensures !IsSupported("model.gcode")
  {
    assert "model.gcode" == "model" + "." + "gcode";
    ExtensionOf("model", "gcode");
    assert |LowerString("gcode")| == 5;
  }

  /** A name without a dot is its own extension: "stl" is accepted. */
  lemma BareExtension()
    ensures IsSupported("stl")
  {
    SplitWhole("stl", '.');
    assert LowerString("stl") == "stl";
  }

  /** "README" has no dot and is no supported format. */
  lemma NoExtension()
    ensures !IsSupported("README")
  {
    SplitWhole("README", '.');
    assert LowerString("README")[0] == 'r';
  }

  // ---- the quality multiplier ----

  /** The position `options.find(option => option.id === id)` stops at, or -1. */
  function OptionIndex(options: seq<QualityOption>, id: string): (k: int)
    ensures -1 <= k < |options|
    ensures k == -1 <==> forall i :: 0 <= i < |options| ==> options[i].id != id
    ensures k != -1 ==> options[k].id == id && forall j :: 0 <= j < k ==> options[j].id != id
  {
    if options == [] then -1
    else if options[0].id == id then 0
    else
      var k := OptionIndex(options[1..], id);
      if k == -1 then -1 else k + 1
  }

  /** The multiplier of the quality with that id, or 1 when no quality has it. */
  function Multiplier(id: string): (m: real)
    ensures 0.9 <= m <= 1.6
  {
    var k := OptionIndex(PrintQualityOptions(), id);
    assert k == -1 || k == 0 || k == 1 || k == 2 || k == 3 || k == 4;
    if k == -1 then 1.0 else PrintQualityOptions()[k].priceMultiplier
  }

  /**
   * Any id that names no quality gets 1; every multiplier lies in
   * `[0.9, 1.6]`, so a positive base price gives a positive estimate.
   */
  lemma MultiplierPositive(id: string)
    ensures id !in {"standard", "medium", "high", "standard-plus", "large-nozzle"} ==> Multiplier(id) == 1.0
    ensures 0.9 <= Multiplier(id) <= 1.6
  {
    var k := OptionIndex(PrintQualityOptions(), id);
    assert k == -1 || k == 0 || k == 1 || k == 2 || k == 3 || k == 4;
  }

  /** The table: each known id gives its own multiplier. */
  lemma MultiplierTable()
    ensures Multiplier("standard") == 1.0
    ensures Multiplier("medium") == 1.3
    ensures Multiplier("high") == 1.6
    ensures Multiplier("standard-plus") == 1.2
    ensures Multiplier("large-nozzle") == 0.9
  {
    assert OptionIndex(PrintQualityOptions(), "standard") == 0;
    assert OptionIndex(PrintQualityOptions(), "medium") == 1;
    assert OptionIndex(PrintQualityOptions(), "high") == 2;
    assert OptionIndex(PrintQualityOptions(), "standard-plus") == 3;
    assert OptionIndex(PrintQualityOptions(), "large-nozzle") == 4;
  }

  // ---- the uploader's state ----

  /**
   * The base price recovered from an estimate when the quality changes: the
   * estimate divided by the old quality's multiplier, or 500 when there is no
   * estimate or it is zero.
   */
  function Rebased(estimate: Estimate, quality: string): (base: real)
    ensures estimate.Estimate? && estimate.amount > 0.0 ==> base > 0.0
    ensures !(estimate.Estimate? && estimate.amount != 0.0) ==> base == 500.0
  {
    var m := Multiplier(quality);
    if estimate.Estimate? && estimate.amount != 0.0 then estimate.amount / m else 500.0
  }

  /** In exact arithmetic, re-basing an estimate gives back the base price it was computed from. */
  lemma RebasedPriceFor(basePrice: real, quality: string)
    requires basePrice > 0.0
    ensures PriceFor(basePrice, quality) > 0.0
    ensures Rebased(Estimate(PriceFor(basePrice, quality)), quality) == basePrice
  {
    MultiplierPositive(quality);
  }

  /** `basePrice * multiplier` for the chosen quality. */
  function PriceFor(basePrice: real, quality: string): real
  {
    basePrice * Multiplier(quality)
  }

  /** The estimated price: none yet, or an amount in rupees. */
  datatype Estimate = NoEstimate | Estimate(amount: real)

  /**
   * The uploader: the accepted file (by name), the chosen print quality and
   * the estimated price. The ghost `priceBase` is the base the current
   * estimate was computed from.
   */
  class Uploader {
    var selectedFile: Option<string>
    var selectedPrintQuality: string
    var estimatedPrice: Estimate
    ghost var priceBase: real

    /** A file and an estimate are present together, and the estimate is the base price times the chosen multiplier. */
    ghost predicate Priced()
      reads this
    {
      && (selectedFile.Some? <==> estimatedPrice.Estimate?)
      && priceBase > 0.0
      && (estimatedPrice.Estimate? ==> estimatedPrice.amount == PriceFor(priceBase, selectedPrintQuality))
    }

    constructor ()
      ensures selectedFile == None && estimatedPrice == NoEstimate && selectedPrintQuality == "standard"
      ensures Priced()
    {
      selectedFile := None;
      selectedPrintQuality := "standard";
      estimatedPrice := NoEstimate;
      priceBase := 500.0;
    }

    /**
     * Upload or drop of a file. `basePrice` is the random whole number in
     * `[500, 1500)` the page draws. A supported file is selected and priced;
     * any other is refused and nothing changes.
     */
    method HandleFile(name: string, basePrice: int) returns (accepted: bool)
      requires 500 <= basePrice < 1500
      modifies this
      ensures accepted <==> IsSupported(name)
      ensures accepted ==> selectedFile == Some(name)
                           && estimatedPrice == Estimate(PriceFor(basePrice as real, selectedPrintQuality))
      ensures !accepted ==> selectedFile == old(selectedFile) && estimatedPrice == old(estimatedPrice)
      ensures selectedPrintQuality == old(selectedPrintQuality)
      ensures old(Priced()) ==> Priced()
    {
      var extension := Extension(name);
      accepted := extension != "" && extension in SupportedFormats();
      if accepted {
        selectedFile := Some(name);
        estimatedPrice := Estimate(PriceFor(basePrice as real, selectedPrintQuality));
        priceBase := basePrice as real;
      }
    }

    /** Re-estimate with a fresh base price; nothing happens while no file is selected. */
    method CalculatePrice(basePrice: int)
      requires 500 <= basePrice < 1500
      modifies this
      ensures selectedFile.None? ==> estimatedPrice == old(estimatedPrice)
      ensures selectedFile.Some? ==> estimatedPrice == Estimate(PriceFor(basePrice as real, selectedPrintQuality))
      ensures selectedFile == old(selectedFile) && selectedPrintQuality == old(selectedPrintQuality)
      ensures old(Priced()) ==> Priced()
    {
      if selectedFile.None? {
        return;
      }
      estimatedPrice := Estimate(PriceFor(basePrice as real, selectedPrintQuality));
      priceBase := basePrice as real;
    }

    /**
     * Choosing another quality: with a file selected, the estimate is re-based
     * on the old quality and priced at the new one.
     */
    method HandlePrintQualityChange(value: string)
      modifies this
      ensures selectedPrintQuality == value && selectedFile == old(selectedFile)
      ensures old(selectedFile).None? ==> estimatedPrice == old(estimatedPrice)
      ensures old(selectedFile).Some? ==>
                estimatedPrice == Estimate(PriceFor(Rebased(old(estimatedPrice), old(selectedPrintQuality)), value))
      ensures old(Priced()) ==> Priced() && priceBase == old(priceBase)
      ensures old(Priced()) && selectedFile.Some? ==> estimatedPrice == Estimate(PriceFor(priceBase, value))
    {
      var base := Rebased(estimatedPrice, selectedPrintQuality);
      if Priced() && estimatedPrice.Estimate? {
        RebasedPriceFor(priceBase, selectedPrintQuality);
      }
      selectedPrintQuality := value;
      if selectedFile.Some? {
        estimatedPrice := Estimate(PriceFor(base, value));
      }
    }

    /**
     * The add-to-cart button only reports: it is refused unless a file is
     * selected and a non-zero estimate exists, and it changes no state.
     */
    method HandleAddToCart() returns (added: bool)
      ensures added <==> selectedFile.Some? && estimatedPrice.Estimate? && estimatedPrice.amount != 0.0
      ensures Priced() ==> (added <==> selectedFile.Some?)
    {
      MultiplierPositive(selectedPrintQuality);
      if selectedFile.None? || estimatedPrice.NoEstimate? || estimatedPrice.amount == 0.0 {
        return false;
      }
      return true;
    }
  }
}

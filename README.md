# CoMPaseD core in Dafny

CoMPaseD (Comparison of Multiple-Protease Digestions) ranks combinations of
proteases for bottom-up proteomics. It digests a proteome in silico with
crux, maps every peptide back to its proteins through a k-mer index, pools
the digests, and then runs a stratified sampling simulation: for every
protease and number of missed cleavages (MC) it draws the number of peptides
the configuration asks for, fills a list of protein objects with the drawn
peptides and counts identified proteins, peptides and sequence coverage for
each protease combination. Around this sit the parameter file (a
`key = value` text file), its validation, the command line, the protein
length bins and abundance columns of the export step, the integer encoding of
peptides for the DeepMSPeptide detectability predictor, and two manuscript
scripts that score combinations within subcellular groups and against
experimental results.

This project models those rules, one Dafny module per source file:

- `Wrappers` (wrappers.dfy): `Option`, `Result` and generic sequence lemmas
- `Strings` (strings.dfy): Python string operations the source uses (`split`, `strip`, `replace`, `lower`, `join`, `in`, `float()`, `int()`)
- `ProteinModel` (protein.dfy): lib/CoMPaseD_protein_class.py
- `Analysis` (analysis.dfy): lib/CoMPaseD_analysis_script.py
- `Combinations` (combinations.dfy): `get_protease_combinations` of lib/CoMPaseD_analysis_script.py
- `SubcellScore` (subcell_score.dfy): Manuscript_Scripts/ProteaseScoreForSubcell.py
- `PeptideMapper` (mapper.dfy): lib/CoMPaseD_PeptideMapper.py
- `PeptidePooling` (pooling.dfy): the pooling step of `main` in lib/CoMPaseD_PeptideMapper.py
- `CruxScript` (crux.dfy): lib/CoMPaseD_crux_script.py
- `Cli` (cli.dfy): CoMPaseD_cli.py
- `ParamFunctions` (params.dfy): lib/CoMPaseD_gui_param_functions.py
- `ExportFunctions` (export.dfy): lib/CoMPaseD_gui_export_functions.py
- `Tools` (tools.dfy): lib/CoMPaseD_tools.py
- `Dmsp` (dmsp.dfy): lib/CoMPaseD_DMSP.py
- `ExperimentalAnalysis` (experimental.dfy): Manuscript_Scripts/CoMPaseD_vs_Experimental_AnalysisScript_subcell.py

The protein and result classes are mutable in the source and are Dafny
classes here (`ProteinModel.Protein`, `ProteinModel.Results`,
`ParamFunctions.ValidationClass`, `ParamFunctions.Parameter`); loops that
build lists become methods with loop invariants, each proved equal to a
specification function, and the properties the program relies on are lemmas
about those functions. The copy of the protein and result classes in
Manuscript_Scripts/ProteaseScoreForSubcell.py is identical to
lib/CoMPaseD_protein_class.py and is modelled once, in `ProteinModel`.

Python behaviour that decides the outcome is modelled as written:

- sampling sizes are truncated toward zero, not rounded (`Analysis.Trunc`);
- `rand_smp` aborts when a stratum holds exactly as many peptides as are requested (`Analysis.ClampedStratumAborts`);
- the cleaned `Freq_MCs` list is stored into `Max_MCs`, so `Freq_MCs` keeps its raw value, and with a non-list `Max_MCs` the assignment reads an unbound name (`ParamFunctions.ValidateSpec`);
- the perl-mapping switch of `validate_params` is read for truthiness, so the text "False" still asks for the perl script paths (`ParamFunctions.PerlPathsCheckedWhenOff`);
- `load_params` requires `Use_perl_mapping`, `Indexing_key_len` and `Differentiate_I_L` in the file but never assigns them;
- the crux wrapper's custom-enzyme parser returns its errors as 3-tuples that its caller unpacks into two names, so they surface as an unpacking error;
- pooling sorts the MC column as text, so "10" sorts before "9";
- a protein that falls into no length bin inherits the label of the protein before it;
- the experimental script's length groups overlap at their borders, and its filtered score column repeats the unfiltered scores.

None of these is claimed as a defect: each is the program's observable behaviour.

## Model

| member | source | states |
|---|---|---|
| `ProteinModel.Protein.constructor` | lib/CoMPaseD_protein_class.py:12-20 | a new protein keeps its id and sequence, has length = length of the sequence, three empty parallel lists and coverage 0 |
| `ProteinModel.Protein.AddPep` | lib/CoMPaseD_protein_class.py:23-30 | appends exactly one entry to each of the three lists, the length as given; the lists stay parallel |
| `ProteinModel.Protein.AddPepVariant2` | lib/CoMPaseD_protein_class.py:33-41 | appends exactly one entry to each list, the stored length being the peptide's own length |
| `ProteinModel.Protein.CalcCoverage` | lib/CoMPaseD_protein_class.py:44-59 | the marking loop returns `Coverage` of the sequence and spans, stores it on success, leaves the peptide lists untouched; IndexError for a span past the end, ZeroDivisionError for an empty sequence |
| `ProteinModel.CoverageIsUnionOverLength` | lib/CoMPaseD_protein_class.py:44-59 | with every span inside 1..length and no "z" residue, coverage = number of distinct residues covered by some span / length (overlaps counted once) |
| `ProteinModel.MarkedIsUnion` | lib/CoMPaseD_protein_class.py:50-53 | after the marking loop a residue is marked iff some span covers it |
| `ProteinModel.MarkedCountIsUnion` | lib/CoMPaseD_protein_class.py:55 | the count of marks equals the size of the union of the spans |
| `ProteinModel.CoverageInUnitInterval` | lib/CoMPaseD_protein_class.py:57 | a computed coverage lies in [0, 1] |
| `ProteinModel.FullTilingCoverage` | lib/CoMPaseD_protein_class.py:44-59 | spans covering every residue 1..length give coverage exactly 1 |
| `ProteinModel.NoPeptidesNoCoverage` | lib/CoMPaseD_protein_class.py:44-59 | a protein without peptides (and without "z") gets coverage 0 |
| `ProteinModel.PositionZeroWrapsToLastResidue` | lib/CoMPaseD_protein_class.py:51-53 | position 0 becomes index -1 and marks the last residue |
| `ProteinModel.SpanPastEndRaises` | lib/CoMPaseD_protein_class.py:52-53 | a span running past the end raises IndexError |
| `ProteinModel.ResidueZCounted` | lib/CoMPaseD_protein_class.py:55 | a residue that already reads "z" counts as covered |
| `ProteinModel.Results.constructor` | lib/CoMPaseD_protein_class.py:68-97 | the combination label is the protease names joined by " - "; replicate, group and threshold are stored; every counter starts at 0 and every peptide-count and coverage list starts empty |
| `ProteinModel.Results.GetNumberProteins` | lib/CoMPaseD_protein_class.py:110-123 | counts the proteins with at least one and with at least `min_peps_per_prot` peptides; the proteins are unchanged |
| `ProteinModel.Results.CountProteins` | lib/CoMPaseD_protein_class.py:113-117 | the counting loop: the number of proteins with at least one peptide and with at least the threshold |
| `ProteinModel.Results.GetNumberPeptides` | lib/CoMPaseD_protein_class.py:126-143 | the totals are the sums of the peptide counts of those two sets of proteins; the proteins are unchanged |
| `ProteinModel.Results.CountPeptides` | lib/CoMPaseD_protein_class.py:131-135 | the loop collects, in protein order, the peptide counts reaching 1 and reaching the threshold |
| `ProteinModel.Results.CollectCoverages` | lib/CoMPaseD_protein_class.py:151-159 | collects, in protein order, the stored coverages of the proteins with at least 1 and with at least `min_peps_per_prot` peptides |
| `ProteinModel.Results.GetCoverageResult` | lib/CoMPaseD_protein_class.py:146-165 | optionally recomputes each coverage first, failing exactly when some coverage cannot be computed; on success both coverage lists are collected, on failure they are unchanged; counters and peptide lists are left alone |
| `ProteinModel.Results.GetResults` | lib/CoMPaseD_protein_class.py:100-107 | fills, from one trial's protein list, both protein counts, both peptide-count lists and their totals, and (unless a coverage fails) both coverage lists; the proteins' data are unchanged |
| `ProteinModel.Results.GetCounts` | lib/CoMPaseD_protein_class.py:100-101 | `get_number_proteins` then `get_number_peptides`: the two protein counts, the two peptide-count lists and their sums |
| `ProteinModel.RecalculateCoverages` | lib/CoMPaseD_protein_class.py:151-154 | runs `calcCoverage` on each protein in order; it fails exactly when some protein's coverage fails |
| `ProteinModel.AtLeastMonotone` | lib/CoMPaseD_protein_class.py:110-143 | a higher threshold keeps no more proteins and no larger peptide total |
| `ProteinModel.FilteredAtMostUnfiltered` | lib/CoMPaseD_protein_class.py:110-143 | with `min_peps_per_prot` >= 1 the filtered protein count and peptide total never exceed the unfiltered ones |
| `ProteinModel.SameCounts` | lib/CoMPaseD_protein_class.py:146-165 | proteins whose data did not change keep their peptide counts |
| `ProteinModel.MakeProteinList` | lib/CoMPaseD_protein_class.py:168-178 | one fresh, distinct protein per FASTA record, in file order, each with empty lists |
| `ProteinModel.GroupRows` | lib/CoMPaseD_protein_class.py:195-202 | the two dictionaries hold, for every protein named by some row and no other, its peptides and locations in row order |
| `ProteinModel.GroupedStep` | lib/CoMPaseD_protein_class.py:197-202 | one more row is appended under its protein, which is created empty if new |
| `ProteinModel.AppendGroup` | lib/CoMPaseD_protein_class.py:207-208 | the group's peptides and locations are appended to the protein in order, with their own lengths |
| `ProteinModel.FillOne` | lib/CoMPaseD_protein_class.py:204-208 | a protein gets exactly the rows naming its id appended, in row order; one named by no row is unchanged |
| `ProteinModel.FillProteinList` | lib/CoMPaseD_protein_class.py:181-209 | every listed protein gets exactly the rows naming its id appended, in row order; rows naming no listed protein are dropped |
| `Combinations.GetProteaseCombinations` | lib/CoMPaseD_analysis_script.py:700-720 | the loop over sizes 1..max, with max clamped to the list length, returns the combinations of each size in turn; max <= 0 gives [] |
| `Combinations.CombosMembers` | lib/CoMPaseD_analysis_script.py:714 | a list is among the size-k combinations iff it has k entries and keeps the protease order (a subsequence) |
| `Combinations.CombosCount` | lib/CoMPaseD_analysis_script.py:714 | there are C(n, k) combinations of size k |
| `Combinations.CombosDistinct` | lib/CoMPaseD_analysis_script.py:714 | over distinct proteases no combination is listed twice |
| `Combinations.AllCombosMembers` | lib/CoMPaseD_analysis_script.py:710-718 | the sizes-1..m list holds exactly the order-keeping selections of 1..m proteases |
| `Combinations.AllCombosCount` | lib/CoMPaseD_analysis_script.py:710-718 | the sizes-1..m list has C(n,1) + ... + C(n,m) entries |
| `Combinations.AllCombosDistinct` | lib/CoMPaseD_analysis_script.py:710-718 | over distinct proteases the list has no repeated combination |
| `Combinations.AllSizesCount` | lib/CoMPaseD_analysis_script.py:706-718 | with max at least the number of proteases there are 2^n - 1 combinations |
| `Combinations.BinomSumAll` | lib/CoMPaseD_analysis_script.py:710-718 | all sizes together count every non-empty selection: C(n,1) + ... + C(n,n) = 2^n - 1 |
| `Analysis.Trunc` | lib/CoMPaseD_analysis_script.py:609 | `astype('int')` truncates toward zero: the result is the integer between 0 and x nearest to x |
| `Analysis.ProteaseMcExpansion` | lib/CoMPaseD_analysis_script.py:453-470 | the integer conversion fails exactly when some maximum is not an integer literal; otherwise the rows are the expansion of the pairs |
| `Analysis.ExpandPairs` | lib/CoMPaseD_analysis_script.py:461-466 | the nested loop emits, for each `zip` pair in order, the rows (p, 0) ... (p, m) |
| `Analysis.ParseIntsSome` | lib/CoMPaseD_analysis_script.py:457 | `[int(i) for i in mc_list]` succeeds exactly when every entry parses, and gives those values |
| `Analysis.ExpansionCount` | lib/CoMPaseD_analysis_script.py:461-466 | the plan has Σ (m + 1) rows over the paired proteases |
| `Analysis.ExpansionMembers` | lib/CoMPaseD_analysis_script.py:461-466 | (p, c) is a row iff some paired protease p has maximum m with 0 <= c <= m |
| `Analysis.GetNumericList` | lib/CoMPaseD_analysis_script.py:509-545 | the list input is joined and split on ',', scanned, sliced between paired brackets and flattened: the result equals `NumericList` |
| `Analysis.ScanTokens` | lib/CoMPaseD_analysis_script.py:525-532 | the first pass records the opening and closing token positions and every value, or fails at a token `float()` rejects |
| `Analysis.ScanToken` | lib/CoMPaseD_analysis_script.py:526-532 | one token: whether it starts with '[' or ends with ']', and the value of what remains |
| `Analysis.SliceGroups` | lib/CoMPaseD_analysis_script.py:533-535 | one slice `value_list[start:stop + 1]` per `zip` pair of opening and closing positions |
| `Analysis.FlattenGroups` | lib/CoMPaseD_analysis_script.py:543 | the groups flattened into one list, in order |
| `Analysis.NumericListFails` | lib/CoMPaseD_analysis_script.py:532 | the call raises exactly when some token is rejected by `float()` |
| `Analysis.NumericListNoGroups` | lib/CoMPaseD_analysis_script.py:533-543 | without an opening bracket no group forms and the result is empty |
| `Analysis.NumericListOfBrackets` | lib/CoMPaseD_analysis_script.py:509-545 | bracketed lists "[v1,...]" read back as the concatenation of their values; values outside bracket pairs are not returned |
| `Analysis.TokenValuesSome` | lib/CoMPaseD_analysis_script.py:532 | the values of the tokens exist exactly when each token parses |
| `Analysis.AssignFrequenciesSpec` | lib/CoMPaseD_analysis_script.py:124-128 | the run stops with RuntimeError exactly when the number of frequencies differs from the number of rows; otherwise row i carries frequency i |
| `Analysis.TableLengthsMatch` | lib/CoMPaseD_analysis_script.py:124-126 | a table whose row i lists `max_mc_i + 1` frequencies has as many frequencies as the expansion has rows |
| `Analysis.FrequenciesOfTable` | lib/CoMPaseD_analysis_script.py:120-128 | such a table passes the length check |
| `Analysis.NormaliseMc` | lib/CoMPaseD_analysis_script.py:548-574 | `normalise_mc` keeps one row per row; each frequency is divided by its enzyme's total |
| `Analysis.NormalisedSumsToOne` | lib/CoMPaseD_analysis_script.py:552-572 | after normalisation the frequencies of an enzyme with a nonzero total sum to 1 |
| `Analysis.NormaliseMcRow` | lib/CoMPaseD_analysis_script.py:571-572 | a row keeps its stratum; its frequency is missing (NaN) exactly when its enzyme's total is zero |
| `Analysis.FrequencyWarningsSpec` | lib/CoMPaseD_analysis_script.py:556-562 | a warning is printed only for an enzyme in the table whose sum is below 0.99 or above 1.01; it changes nothing |
| `Analysis.GetPepCounts` | lib/CoMPaseD_analysis_script.py:577-586 | the merged count column has one entry per plan row |
| `Analysis.GetPepCountsSpec` | lib/CoMPaseD_analysis_script.py:580-584 | the merged count is the stratum's number of peptides, missing exactly when it has none |
| `Analysis.CountRowsZero` | lib/CoMPaseD_analysis_script.py:580 | a stratum counts zero peptides exactly when no peptide row belongs to it |
| `Analysis.SubsetKeyInjective` | lib/CoMPaseD_analysis_script.py:659 | distinct (Enzyme, MC) strata get distinct `subset` keys |
| `Analysis.ParseReals` | lib/CoMPaseD_analysis_script.py:623 | `[float(f) for f in ...]` gives one value per entry or fails |
| `Analysis.PepSums` | lib/CoMPaseD_analysis_script.py:632-637 | each protease gets the sum of its strata's peptide counts brought in by the merge |
| `Analysis.Totals` | lib/CoMPaseD_analysis_script.py:592-642 | the per-protease totals, one per protease, from the configured counts or the coverage fractions |
| `Analysis.CoverageTotalsOf` | lib/CoMPaseD_analysis_script.py:637-640 | one coverage-mode total per protease once the fractions are parsed |
| `Analysis.RawSizes` | lib/CoMPaseD_analysis_script.py:608-609 | every stratum's raw size is trunc(its protease's total × its frequency) |
| `Analysis.PlanOf` | lib/CoMPaseD_analysis_script.py:618-619 | every stratum keeps its place and gets min(raw size, peptide count) |
| `Analysis.PlanSizes` | lib/CoMPaseD_analysis_script.py:605-619 | a successful plan keeps every stratum in order with size min(trunc(total × frequency), count): truncated, not rounded |
| `Analysis.PlanWarning` | lib/CoMPaseD_analysis_script.py:614-617 | the warning is printed exactly when some stratum asked for more peptides than it has |
| `Analysis.PlanMissingCount` | lib/CoMPaseD_analysis_script.py:618-619 | a stratum without peptides (NaN count) makes the integer cast fail |
| `Analysis.PlanMissingTotal` | lib/CoMPaseD_analysis_script.py:605-609 | a stratum whose protease has no configured total makes the cast fail |
| `Analysis.NumberTotals` | lib/CoMPaseD_analysis_script.py:595-603 | in number mode the counts must parse as integers and be one per protease; then they are the totals |
| `Analysis.CoverageFractions` | lib/CoMPaseD_analysis_script.py:621-629 | in coverage mode the fractions must parse and be one per protease |
| `Analysis.CoverageTotals` | lib/CoMPaseD_analysis_script.py:632-639 | in coverage mode a protease's total is trunc(fraction × the sum of its strata's counts); a protease without strata makes the cast fail |
| `Analysis.EnzymePeptidesSpec` | lib/CoMPaseD_analysis_script.py:632-637 | an enzyme has a peptide sum exactly when it has a stratum |
| `Analysis.GetPepsRequiredOther` | lib/CoMPaseD_analysis_script.py:592-661 | with a basis other than "number" or "coverage" every stratum is kept without a size |
| `Analysis.Candidates` | lib/CoMPaseD_analysis_script.py:676 | the IDs whose `subset` key equals the stratum's key: in range, increasing, and exactly the matching rows |
| `Analysis.CandidatesOfStratum` | lib/CoMPaseD_analysis_script.py:676-680 | the candidates of a stratum are exactly its peptides, as many as `get_pep_counts` counted |
| `Analysis.RandSmp` | lib/CoMPaseD_analysis_script.py:664-697 | on weight column w: raises exactly at the first stratum that is not drawable, with its error; otherwise returns, per stratum in plan order, `size` distinct IDs of that stratum, each of positive weight, flattened |
| `Analysis.DrawStratum` | lib/CoMPaseD_analysis_script.py:674-691 | one stratum: its error (no size; not strictly more rows than the size; then, from `sample`, a negative size, a negative weight, no positive weight or fewer positive weights than the size) or `size` distinct candidate IDs of positive weight |
| `Analysis.Weighted` | lib/CoMPaseD_analysis_script.py:686-688 | the rows a weighted `sample` can return: exactly the candidates whose weight is positive (not 0, not NaN), in order |
| `Analysis.WeightedIncreasing` | lib/CoMPaseD_analysis_script.py:676-688 | the positively weighted candidates stay in increasing row order |
| `Analysis.UnweightedStratumFails` | lib/CoMPaseD_analysis_script.py:686-688 | a stratum whose rows all have weight 0 or NaN raises ValueError even when it has more rows than its size |
| `Analysis.UnweightedPairFails` | lib/CoMPaseD_analysis_script.py:686-688 | two rows of weights 0 and NaN and a size of 1: the draw raises ValueError, although 2 rows are more than 1 |
| `Analysis.FewWeightedFails` | lib/CoMPaseD_analysis_script.py:686-688 | fewer positively weighted rows than the size stops the draw |
| `Analysis.DrawErrorPrefix` | lib/CoMPaseD_analysis_script.py:674-684 | once a prefix of the plan stops, the whole plan stops with the same error |
| `Analysis.DrawErrorNone` | lib/CoMPaseD_analysis_script.py:678-688 | `rand_smp` on a weight column goes through exactly when every stratum is drawable: a size below its number of rows, no negative weight and at least max(size, 1) positive weights |
| `Analysis.StratumErrorNone` | lib/CoMPaseD_analysis_script.py:679-688 | one stratum stops the draw exactly when it is not drawable under the column's weights |
| `Analysis.DrawnDrawableAt` | lib/CoMPaseD_analysis_script.py:674-688 | when the draw goes through, each stratum was drawable under the column's weights |
| `Analysis.DrawableDrawn` | lib/CoMPaseD_analysis_script.py:674-688 | when every stratum is drawable under the column's weights, the draw goes through |
| `Analysis.DrawLength` | lib/CoMPaseD_analysis_script.py:687-695 | a draw returns as many IDs as the plan's sizes add up to |
| `Analysis.DrawMembership` | lib/CoMPaseD_analysis_script.py:676-691 | every ID drawn for a stratum is one of that stratum's peptides and has a positive weight |
| `Analysis.DrawnWeighted` | lib/CoMPaseD_analysis_script.py:686-691 | no ID of a draw has weight 0, NaN or a negative weight |
| `Analysis.DrawDistinct` | lib/CoMPaseD_analysis_script.py:687-695 | with distinct strata no ID is drawn twice in one trial |
| `Analysis.CandidatesDisjoint` | lib/CoMPaseD_analysis_script.py:676 | strata with different keys share no candidate |
| `Analysis.ClampedStratumAborts` | lib/CoMPaseD_analysis_script.py:618-619 | the clamp of line 618 meets the strict check of line 681: a stratum that asked for at least all its peptides stops the sampling |
| `Analysis.RandomSamplingColumns` | lib/CoMPaseD_analysis_script.py:155-158 | the random sampling columns are exactly the columns whose lower-cased name starts with "random_sampling_", in column order |
| `Analysis.SamplingColumnNamePrefix` | lib/CoMPaseD_analysis_script.py:170 | the recorded column is the lower-cased name with "random_sampling_" replaced by "sampling_" |
| `Analysis.SamplingColumn` | lib/CoMPaseD_analysis_script.py:172-174 | the 0/1 column has one entry per peptide row |
| `Analysis.SamplingColumnAt` | lib/CoMPaseD_analysis_script.py:172-174 | the column is 1 exactly on the returned IDs and 0 elsewhere |
| `Analysis.SamplingColumnOnes` | lib/CoMPaseD_analysis_script.py:172-174 | a column built from distinct row IDs holds as many 1s as there are IDs |
| `Analysis.SampleTrials` | lib/CoMPaseD_analysis_script.py:164-175 | one `rand_smp` per random sampling column, each by that column's own weights and recorded as its 0/1 column; the run stops exactly at the first column whose draw fails, with its error |
| `Analysis.TrialsErrorNone` | lib/CoMPaseD_analysis_script.py:167-169 | the sampling loop goes through exactly when the draw of every random sampling column goes through, each by its own weights |
| `Analysis.TrialsErrorPrefix` | lib/CoMPaseD_analysis_script.py:167-169 | once a column's draw fails, the whole loop fails with that error |
| `Analysis.UsedRows` | lib/CoMPaseD_analysis_script.py:178-181 | the rows kept are exactly those with `pep_used` > 0, in row order |
| `Analysis.PepUsedPositive` | lib/CoMPaseD_analysis_script.py:178 | over 0/1 columns `pep_used` is positive exactly when some column has a 1 |
| `Analysis.KeptIffDrawn` | lib/CoMPaseD_analysis_script.py:164-181 | after sampling a peptide row is kept exactly when some trial drew it |
| `Analysis.KeptWeighted` | lib/CoMPaseD_analysis_script.py:167-181 | a row kept after sampling has a positive weight in some random sampling column |
| `SubcellScore.SubsetCombinations` | Manuscript_Scripts/ProteaseScoreForSubcell.py:211-214 | the combinations of 1..n enzymes, n the number of distinct enzymes, over some iteration order of the set (each enzyme once): exactly the non-empty order-keeping selections, 2^n - 1 of them |
| `SubcellScore.EnumerationExists` | Manuscript_Scripts/ProteaseScoreForSubcell.py:212 | every finite set of enzymes has an iteration order listing each member once |
| `SubcellScore.TrypsinLabel` | Manuscript_Scripts/ProteaseScoreForSubcell.py:85 | a result's label, its combination joined by " - ", is "trypsin" exactly for the combination of trypsin alone |
| `SubcellScore.ColumnIndex` | Manuscript_Scripts/ProteaseScoreForSubcell.py:410 | the position of a sampling column, missing exactly when the table has no such column (a KeyError) |
| `SubcellScore.TrialRowsMembers` | Manuscript_Scripts/ProteaseScoreForSubcell.py:400-410 | a row is used by a trial exactly when its enzyme is in the combination and its `sampling_i` column holds 1 |
| `SubcellScore.TrialData` | Manuscript_Scripts/ProteaseScoreForSubcell.py:409-411 | the proteins of one trial are the FASTA records, each holding exactly that trial's rows for it |
| `SubcellScore.TrialProteins` | Manuscript_Scripts/ProteaseScoreForSubcell.py:409-411 | each trial builds a fresh, distinct protein list, filled with the trial's rows only, so trials share no peptide assignment |
| `SubcellScore.RunTrial` | Manuscript_Scripts/ProteaseScoreForSubcell.py:408-416 | trial u gives a fresh record whose summary is that trial's outcome, or the trial's error |
| `SubcellScore.ScoreTrial` | Manuscript_Scripts/ProteaseScoreForSubcell.py:414-415 | a new record (threshold 2) whose protein counts, peptide-count lists, totals and both coverage lists are those of the filled proteins; fails exactly when a coverage cannot be computed |
| `SubcellScore.AnalyseSampling` | Manuscript_Scripts/ProteaseScoreForSubcell.py:390-420 | for trials 1..max, one fresh record per trial with that trial's outcome; the first missing column or failing coverage stops the analysis |
| `SubcellScore.TrialOutcomesAt` | Manuscript_Scripts/ProteaseScoreForSubcell.py:404-416 | entry u of the outcome list is the outcome of trial `sampling_{u+1}` alone |
| `SubcellScore.TrialCountsAre` | Manuscript_Scripts/ProteaseScoreForSubcell.py:409-415 | the filled proteins carry that trial's peptide counts and, once computed, its coverages |
| `SubcellScore.CollectTrypsin` | Manuscript_Scripts/ProteaseScoreForSubcell.py:269-274 | the first pass collects the results labelled "trypsin", in order, and their positions |
| `SubcellScore.TrypsinIndices` | Manuscript_Scripts/ProteaseScoreForSubcell.py:271-274 | the positions labelled "trypsin": increasing, in range, and exactly those |
| `SubcellScore.DeleteIndices` | Manuscript_Scripts/ProteaseScoreForSubcell.py:275-276 | deleting the positions in decreasing order removes exactly those entries |
| `SubcellScore.WithoutDelete` | Manuscript_Scripts/ProteaseScoreForSubcell.py:275-276 | deleting position d after only higher positions were deleted removes original entry d |
| `SubcellScore.WithoutTrypsin` | Manuscript_Scripts/ProteaseScoreForSubcell.py:269-276 | removing the trypsin positions leaves exactly the other results, in their original order |
| `SubcellScore.SeparateTrypsin` | Manuscript_Scripts/ProteaseScoreForSubcell.py:268-276 | the trypsin results and the other results, each in original order |
| `SubcellScore.PickSizes` | Manuscript_Scripts/ProteaseScoreForSubcell.py:268-276 | the two parts share the results between them: sizes add up and the multisets make up the whole list |
| `SubcellScore.PickMembers` | Manuscript_Scripts/ProteaseScoreForSubcell.py:271-274 | every separated result carries the label it was selected for |
| `SubcellScore.Keys` | Manuscript_Scripts/ProteaseScoreForSubcell.py:283-284 | the join key of each result is its (Random sampling, Protein group) |
| `SubcellScore.MatchesUnique` | Manuscript_Scripts/ProteaseScoreForSubcell.py:283-284 | with unique right keys a key matches at most one right entry, none exactly when the key is absent |
| `SubcellScore.LeftJoinKeepsLeft` | Manuscript_Scripts/ProteaseScoreForSubcell.py:283-284 | the left join loses no non-trypsin result: every left entry appears, and the join is at least as long |
| `SubcellScore.LeftJoinUnique` | Manuscript_Scripts/ProteaseScoreForSubcell.py:283-284 | with one trypsin result per key, one row per non-trypsin result, in order, joined to the trypsin result of its key or to nothing |
| `SubcellScore.LastJoined` | Manuscript_Scripts/ProteaseScoreForSubcell.py:283-284 | with unique right keys one left entry gives exactly one joined row |
| `PeptideMapper.Sanitise` | lib/CoMPaseD_PeptideMapper.py:322-323 | a name after the replacements keeps its length and has `_` in place of every special character, each other character unchanged |
| `PeptideMapper.SanitiseStep` | lib/CoMPaseD_PeptideMapper.py:322-323 | the `replace` calls one special character after another add up to the replacement of all of them |
| `PeptideMapper.Dedup` | lib/CoMPaseD_PeptideMapper.py:325-326 | the `while` loop ends on a name not taken yet, the name followed by some number of "_1" |
| `PeptideMapper.CleanProteaseNames` | lib/CoMPaseD_PeptideMapper.py:318-329 | the loops (replacement character by character, "_1" appended while the name is taken) compute the cleaned names |
| `PeptideMapper.CleanNamesDistinct` | lib/CoMPaseD_PeptideMapper.py:324-328 | the cleaned names are pairwise distinct |
| `PeptideMapper.CleanNamesShape` | lib/CoMPaseD_PeptideMapper.py:321-328 | each cleaned name is its protease's sanitised name followed by some "_1"s |
| `PeptideMapper.CleanNamesNoSpecials` | lib/CoMPaseD_PeptideMapper.py:322-323 | no cleaned name contains a special character |
| `PeptideMapper.CleanSingle` | lib/CoMPaseD_PeptideMapper.py:387-389 | a list of one protease is only sanitised: no "_1" is added |
| `PeptideMapper.OptionsContain` | lib/CoMPaseD_PeptideMapper.py:362-367 | every option of the command appears in it as " --name value" followed by a space or the end |
| `PeptideMapper.CommandParts` | lib/CoMPaseD_PeptideMapper.py:362-367 | a command keeps its head at the start, its tail at the end and each option in between |
| `PeptideMapper.GeneratePeptidesCallErrors` | lib/CoMPaseD_PeptideMapper.py:349-359 | the call succeeds exactly when both the digestion and the enzyme are in the allowed sets; it fails with the digestion error exactly when the digestion is not allowed (checked first); a success is the command text |
| `PeptideMapper.GeneratePeptidesCallShape` | lib/CoMPaseD_PeptideMapper.py:362-367 | the command starts with the quoted crux path and ` generate-peptides`, holds the missed cleavages, the enzyme and the quoted output folder as options, and ends with the quoted FASTA path |
| `PeptideMapper.StratumCallSpec` | lib/CoMPaseD_PeptideMapper.py:386-399 | the call for a stratum (full digestion) succeeds exactly when its enzyme is allowed, fails otherwise with the protease error, and is then the stratum's command |
| `PeptideMapper.GetCruxCmds` | lib/CoMPaseD_PeptideMapper.py:372-406 | the run succeeds exactly when every stratum's call does, and a failure is the error of the first stratum whose call fails; on success the four lists run parallel to the strata: each stratum's command, protease, MC count and file line |
| `PeptideMapper.StratumCmd` | lib/CoMPaseD_PeptideMapper.py:387-405 | one stratum gives its call's command or error, and the file line naming its crux output |
| `PeptideMapper.CruxCmdsStrata` | lib/CoMPaseD_PeptideMapper.py:379-382 | there are Σ (m + 1) strata, and (p, c) is one exactly when p is paired with a maximum m with 0 <= c <= m |
| `PeptideMapper.FileLineFields` | lib/CoMPaseD_PeptideMapper.py:401-403 | a file line splits on tabs into the crux target file, the protease and the MC count, and the count reads back as itself |
| `PeptideMapper.ResolveAlphabetKeywords` | lib/CoMPaseD_PeptideMapper.py:431-447 | the keyword alphabets contain I exactly when I and L are kept apart, and always contain L |
| `PeptideMapper.Prepend` | lib/CoMPaseD_PeptideMapper.py:478 | each word of the product prefixed by one letter, in order |
| `PeptideMapper.PrefixedMembers` | lib/CoMPaseD_PeptideMapper.py:478 | a word of one more letter is in the product exactly when its first letter is in the alphabet and its rest is a shorter word |
| `PeptideMapper.WordsMembers` | lib/CoMPaseD_PeptideMapper.py:478-484 | the index keys are exactly the strings of length k over the alphabet |
| `PeptideMapper.FoldedSeqsAt` | lib/CoMPaseD_PeptideMapper.py:492-495 | the n-th folded sequence is record n's sequence with I turned into L when the flag is on |
| `PeptideMapper.PosOccMembers` | lib/CoMPaseD_PeptideMapper.py:504-510 | the entries of record n under a window are the 1-based offsets where that window occurs |
| `PeptideMapper.OccMembers` | lib/CoMPaseD_PeptideMapper.py:489-510 | the entries under a window are exactly the (record, 1-based offset) pairs where it occurs |
| `PeptideMapper.PosOccAscending` | lib/CoMPaseD_PeptideMapper.py:507-510 | a record's entries are in ascending offset order and all of that record |
| `PeptideMapper.OccAscending` | lib/CoMPaseD_PeptideMapper.py:489-513 | the entries under a key are in record order, then offset order, and name existing records |
| `PeptideMapper.EntriesAt` | lib/CoMPaseD_PeptideMapper.py:509 | entry j is "<hex record>, <offset>" of pair j |
| `PeptideMapper.IdMapAt` | lib/CoMPaseD_PeptideMapper.py:498 | every record's six-digit hex key maps to that record's id |
| `PeptideMapper.SeqMapAt` | lib/CoMPaseD_PeptideMapper.py:501 | every record's hex key maps to its folded sequence |
| `PeptideMapper.WindowsOverMeaning` | lib/CoMPaseD_PeptideMapper.py:504-509 | the first m windows are keys exactly when each of them is over the alphabet |
| `PeptideMapper.WindowsOverStable` | lib/CoMPaseD_PeptideMapper.py:504 | offsets past the last window do not change which windows are checked |
| `PeptideMapper.PosOccStable` | lib/CoMPaseD_PeptideMapper.py:504 | offsets past the last window add no entry |
| `PeptideMapper.EntriesAppend` | lib/CoMPaseD_PeptideMapper.py:509 | the entry texts of two runs of pairs are those of each, one after the other |
| `PeptideMapper.WindowStep` | lib/CoMPaseD_PeptideMapper.py:508-510 | one more window of a record adds its entry under its own key and nothing under the others |
| `PeptideMapper.RecordStep` | lib/CoMPaseD_PeptideMapper.py:504-510 | after its last window a record has added all its occurrences |
| `PeptideMapper.IndexStep` | lib/CoMPaseD_PeptideMapper.py:509 | appending the entry of a window keeps every key's list equal to its occurrences so far |
| `PeptideMapper.IndexWindows` | lib/CoMPaseD_PeptideMapper.py:504-510 | the window loop of one record fails exactly when a window is not over the alphabet (the KeyError), keeps the key set, and leaves each key's list equal to the occurrences up to this record |
| `PeptideMapper.RecordsStep` | lib/CoMPaseD_PeptideMapper.py:489-513 | after record n the index holds the occurrences in records 0..n and no earlier window was bad |
| `PeptideMapper.EmptyLists` | lib/CoMPaseD_PeptideMapper.py:481-484 | the first loop maps exactly the keys to empty lists |
| `PeptideMapper.GenerateIndexFails` | lib/CoMPaseD_PeptideMapper.py:508-509 | a record with a window outside the alphabet makes the whole file unindexable |
| `PeptideMapper.GenerateIndex` | lib/CoMPaseD_PeptideMapper.py:430-513 | the index fails (KeyError) exactly when some folded record has a window outside the resolved alphabet; otherwise its keys are the words over the alphabet, each listing exactly its occurrences in order, and the two dictionaries map each hex key to the record's id and folded sequence |
| `PeptideMapper.BuildIndex` | lib/CoMPaseD_PeptideMapper.py:472-513 | the same, once the alphabet keyword is resolved |
| `PeptideMapper.IndexRecord` | lib/CoMPaseD_PeptideMapper.py:489-513 | one record either shows a bad window or extends the index, the id map and the sequence map by itself |
| `PeptideMapper.MapsStep` | lib/CoMPaseD_PeptideMapper.py:498-501 | the two dictionaries after one more record: its key added to each |
| `PeptideMapper.FindFrom` | lib/CoMPaseD_PeptideMapper.py:648 | a position found is at or after the start, and the separator occurs there |
| `PeptideMapper.FindFromNoComma` | lib/CoMPaseD_PeptideMapper.py:648 | a text without ", " has no separator |
| `PeptideMapper.FindFromSeparator` | lib/CoMPaseD_PeptideMapper.py:648 | in "h, t" with no separator in h, the first separator is right after h |
| `PeptideMapper.EntryRoundTrip` | lib/CoMPaseD_PeptideMapper.py:646-650 | an entry written by the index splits back into the record's hex key and its position, and the position reads back as itself |
| `PeptideMapper.SliceBound` | lib/CoMPaseD_PeptideMapper.py:656 | a slice bound as Python normalises it, inside the text, and itself when already inside |
| `PeptideMapper.PySlice` | lib/CoMPaseD_PeptideMapper.py:656 | `s[i:j]` is the ordinary slice for bounds in range |
| `PeptideMapper.PySliceMatch` | lib/CoMPaseD_PeptideMapper.py:653-657 | from a non-negative start, the slice of the peptide's length equals the peptide exactly when the peptide occurs there |
| `PeptideMapper.EntryResultsPrefix` | lib/CoMPaseD_PeptideMapper.py:646-662 | the outcomes of the first k entries do not depend on the others |
| `PeptideMapper.PeptideResultsPrefix` | lib/CoMPaseD_PeptideMapper.py:635-662 | the outcomes of the first k peptides do not depend on the others |
| `PeptideMapper.MapPeptideEntries` | lib/CoMPaseD_PeptideMapper.py:646-667 | the entry loop of one peptide returns its lines, or the first error an entry raises |
| `PeptideMapper.EntryStep` | lib/CoMPaseD_PeptideMapper.py:646-667 | one more entry: its error ends the run, its lines extend it |
| `PeptideMapper.MapOnePeptide` | lib/CoMPaseD_PeptideMapper.py:636-667 | one peptide returns its lines or its error: nothing when shorter than the index length, else the lines under its folded prefix |
| `PeptideMapper.MapPeptides` | lib/CoMPaseD_PeptideMapper.py:632-669 | the loop returns the header line and every peptide's lines in order, or the first error raised |
| `PeptideMapper.PeptideFails` | lib/CoMPaseD_PeptideMapper.py:635-662 | a peptide that raises ends the whole run with its error |
| `PeptideMapper.PeptideStep` | lib/CoMPaseD_PeptideMapper.py:635-662 | a peptide that maps adds its lines after those of the peptides before it |
| `PeptideMapper.KeepBounds` | lib/CoMPaseD_PeptideMapper.py:656-657 | the confirmed pairs name existing records |
| `PeptideMapper.KeepAppend` | lib/CoMPaseD_PeptideMapper.py:656-657 | confirming two runs of pairs confirms each |
| `PeptideMapper.KeepSnoc` | lib/CoMPaseD_PeptideMapper.py:656-657 | one more pair is kept exactly when it is confirmed |
| `PeptideMapper.ConfirmsWindow` | lib/CoMPaseD_PeptideMapper.py:653-657 | at a 1-based offset, the slice comparison is the test that the peptide occurs there |
| `PeptideMapper.KeepPosOcc` | lib/CoMPaseD_PeptideMapper.py:643-657 | within one record, confirming the occurrences of the peptide's prefix leaves those of the peptide |
| `PeptideMapper.WindowPrefix` | lib/CoMPaseD_PeptideMapper.py:643 | where the peptide occurs, each of its prefixes occurs |
| `PeptideMapper.KeepOcc` | lib/CoMPaseD_PeptideMapper.py:643-657 | over the records, confirming the occurrences of the prefix leaves exactly those of the peptide |
| `PeptideMapper.IndexResolves` | lib/CoMPaseD_PeptideMapper.py:498-501 | on a generated index every entry's hex key finds its record's id and sequence |
| `PeptideMapper.MapEntryAt` | lib/CoMPaseD_PeptideMapper.py:646-662 | on such an index an entry yields its line exactly when the slice confirms it, and never raises |
| `PeptideMapper.MapEntriesStep` | lib/CoMPaseD_PeptideMapper.py:646-662 | the entry loop over one more entry that does not raise appends its lines |
| `PeptideMapper.MapEntriesOcc` | lib/CoMPaseD_PeptideMapper.py:646-662 | on a generated index the entry loop never raises and writes the lines of exactly the confirmed entries, in order |
| `PeptideMapper.KeepLinesSnoc` | lib/CoMPaseD_PeptideMapper.py:657-662 | one more pair adds its line exactly when it is confirmed |
| `PeptideMapper.MapPeptideOnIndex` | lib/CoMPaseD_PeptideMapper.py:636-662 | on an index built from the records: a peptide shorter than the index length maps nowhere; one whose folded prefix leaves the alphabet raises KeyError; otherwise its lines are those of every occurrence of the folded peptide in the folded records, by record and then by position |
| `PeptideMapper.MapPeptideFound` | lib/CoMPaseD_PeptideMapper.py:643-662 | a peptide whose folded prefix is a key gets the lines of all its occurrences, in order |
| `PeptideMapper.ReportedOccurrences` | lib/CoMPaseD_PeptideMapper.py:504-510 | the occurrences reported are in order and are exactly the 1-based places where the folded record holds the folded peptide |
| `CruxScript.CleanNamesSpec` | lib/CoMPaseD_crux_script.py:303-314 | the crux wrapper's cleaned names (which also replace brackets and braces) keep their number, hold no special character, are pairwise distinct, and a single name is only sanitised |
| `CruxScript.LetterRun` | lib/CoMPaseD_crux_script.py:510 | the greedy `[A-Za-z]*` from a position: all letters up to its end, and its end is the text's end or a non-letter |
| `CruxScript.LetterRunExact` | lib/CoMPaseD_crux_script.py:510 | a run of letters followed by a non-letter or the end is exactly what the greedy group takes |
| `CruxScript.MatchAtSound` | lib/CoMPaseD_crux_script.py:510 | a match of the six groups at a position spans well-formed groups from there |
| `CruxScript.MatchAtComplete` | lib/CoMPaseD_crux_script.py:510 | well-formed groups spanned at a position are what the pattern captures there |
| `CruxScript.MatchAtSpec` | lib/CoMPaseD_crux_script.py:510-517 | the pattern matches at a position with given groups exactly when the text spans those well-formed groups there |
| `CruxScript.SearchFrom` | lib/CoMPaseD_crux_script.py:510-512 | a match found by the lazy leading `.*?` is at or after the start, and the groups match there |
| `CruxScript.SearchFromSpec` | lib/CoMPaseD_crux_script.py:510-512 | the search returns the first position the lazy prefix can reach (no newline crossed) where the groups match, and finds nothing exactly when no such position matches |
| `CruxScript.UpperLetters` | lib/CoMPaseD_crux_script.py:520-521 | upper-casing ASCII letters gives letters A to Z |
| `CruxScript.UpperKeeps` | lib/CoMPaseD_crux_script.py:520-521 | upper-casing upper-case letters changes nothing |
| `CruxScript.FillSpec` | lib/CoMPaseD_crux_script.py:519-550 | a bracket's letters after filling are a non-empty upper-case run (X for an empty pair), and filling again changes nothing |
| `CruxScript.RenderNoSpace` | lib/CoMPaseD_crux_script.py:559 | a rendered rule holds no whitespace |
| `CruxScript.HandleNone` | lib/CoMPaseD_crux_script.py:505-515 | the custom rule raises exactly when no position of the whitespace-free text spans the bracket-pair pattern |
| `CruxScript.HandleFound` | lib/CoMPaseD_crux_script.py:512-559 | otherwise the first pattern found decides: a mismatched first pair gives -2, a mismatched second pair -3, matched pairs the rule built from the groups |
| `CruxScript.HandleAccepted` | lib/CoMPaseD_crux_script.py:517-559 | an accepted rule is clean (matched pairs, non-empty upper-case letters), and handling it again accepts it unchanged |
| `CruxScript.HandleRendered` | lib/CoMPaseD_crux_script.py:512-559 | a text that is exactly a bracket-pair pattern is decided by its own groups |
| `CruxScript.HandleExampleLower` | lib/CoMPaseD_crux_script.py:519-559 | `[kr]|{}` is accepted as `[KR]|{X}` |
| `CruxScript.HandleExampleMismatch` | lib/CoMPaseD_crux_script.py:552-557 | `[]|[P}` gives code -3 |
| `CruxScript.GeneratePeptidesCallErrors` | lib/CoMPaseD_crux_script.py:334-364 | the digestion is checked first; a custom name fails with the syntax error exactly when no pattern is found, and with the unpacking error exactly when a pair is mismatched (the three-value return); any other name fails exactly when crux does not know it; otherwise the call succeeds |
| `CruxScript.GeneratePeptidesCallShape` | lib/CoMPaseD_crux_script.py:344-374 | an accepted command starts with the crux path and ` generate-peptides`, holds the missed cleavages, the digestion, the unquoted output folder and either `--enzyme <name>` or `--custom-enzyme "<rule>"`, and ends with the FASTA path |
| `CruxScript.GenerateClipsCall` | lib/CoMPaseD_crux_script.py:377-392 | the clips command starts with the perl prefix and the script path and ends with the segment size and the FASTA path |
| `CruxScript.GeneratePromastCall` | lib/CoMPaseD_crux_script.py:395-412 | the promast command starts with the perl prefix and the script path and ends with the thread count, output name, FASTA path and peptide list |
| `CruxScript.PerlPrefix` | lib/CoMPaseD_crux_script.py:388-391 | the perl prefix appears exactly when the platform names Linux |
| `CruxScript.StratumCallSpec` | lib/CoMPaseD_crux_script.py:429-442 | a stratum's call (full digestion) succeeds exactly when its enzyme option does, and fails with that option's error |
| `CruxScript.GetCruxCmds` | lib/CoMPaseD_crux_script.py:415-449 | the run succeeds exactly when every stratum's call does, and a failure is the error of the first stratum whose call fails; on success the four lists run parallel to the strata: each stratum's command, protease, MC count and file line |
| `CruxScript.StratumCmd` | lib/CoMPaseD_crux_script.py:430-448 | one stratum gives its call's command or error, and the file line naming its crux output |
| `PeptidePooling.ListLineFields` | lib/CoMPaseD_PeptideMapper.py:247-272 | a file-list line written as file, protease and MC joined by tabs splits on tabs back into those three fields when none of them holds a tab |
| `PeptidePooling.UniqueInCount` | lib/CoMPaseD_PeptideMapper.py:276 | after `drop_duplicates(keep=False)` a peptide keeps its rows when it occurs once in the digest and none otherwise |
| `PeptidePooling.PeptideCountAppend` | lib/CoMPaseD_PeptideMapper.py:276 | the number of rows of a peptide in two tables together is the sum over each |
| `PeptidePooling.UniqueInMembers` | lib/CoMPaseD_PeptideMapper.py:276 | a row survives exactly when it is a row of the digest and its peptide occurs once there |
| `PeptidePooling.UniquePeptidesSpec` | lib/CoMPaseD_PeptideMapper.py:274-276 | within one digest a peptide keeps its single row when it occurs once and disappears when it occurs more than once; rows are kept, never invented |
| `PeptidePooling.PoolDigests` | lib/CoMPaseD_PeptideMapper.py:265-282 | the pooling loop appends, digest by digest, the digest's unique rows tagged with its MC and enzyme |
| `PeptidePooling.PooledRows` | lib/CoMPaseD_PeptideMapper.py:276-282 | every pooled row comes from one digest, carries its MC and enzyme, and is a unique row of it |
| `PeptidePooling.TextLessIrreflexive` | lib/CoMPaseD_PeptideMapper.py:288 | the text order on MC values is irreflexive |
| `PeptidePooling.TextLessTrans` | lib/CoMPaseD_PeptideMapper.py:288 | the text order on MC values is transitive |
| `PeptidePooling.TextLessTotal` | lib/CoMPaseD_PeptideMapper.py:288 | the text order on MC values is total and asymmetric |
| `PeptidePooling.TextAtLeastTrans` | lib/CoMPaseD_PeptideMapper.py:288 | "not below" in text order is transitive |
| `PeptidePooling.McTextSingleDigits` | lib/CoMPaseD_PeptideMapper.py:272-288 | for MC counts 0 to 9 the text order is the numeric order |
| `PeptidePooling.McTextTenBelowNine` | lib/CoMPaseD_PeptideMapper.py:272-288 | the MC values are read back as text, so "10" sorts below "9" |
| `PeptidePooling.InsertMultiset` | lib/CoMPaseD_PeptideMapper.py:288 | inserting a row adds exactly that row |
| `PeptidePooling.InsertSorted` | lib/CoMPaseD_PeptideMapper.py:288 | inserting a row into a descending list keeps it descending |
| `PeptidePooling.ConsSorted` | lib/CoMPaseD_PeptideMapper.py:288 | a row not below any row of a descending list can head it |
| `PeptidePooling.InsertStable` | lib/CoMPaseD_PeptideMapper.py:288 | inserting never moves a row across a row with the same MC text |
| `PeptidePooling.SortByMcSpec` | lib/CoMPaseD_PeptideMapper.py:288 | the merge sort orders by descending MC text, keeps every row, and is stable on rows of equal MC |
| `PeptidePooling.KeysCons` | lib/CoMPaseD_PeptideMapper.py:290 | the (peptide, enzyme) keys of a table are its first row's and the rest's |
| `PeptidePooling.KeyCountZero` | lib/CoMPaseD_PeptideMapper.py:290 | a key has no row exactly when it is not a key of the table |
| `PeptidePooling.KeepLastKeys` | lib/CoMPaseD_PeptideMapper.py:290-291 | `drop_duplicates(keep='last')` keeps exactly the keys of the table |
| `PeptidePooling.KeepLastOnce` | lib/CoMPaseD_PeptideMapper.py:290-291 | it keeps every key at most once |
| `PeptidePooling.KeepLastRows` | lib/CoMPaseD_PeptideMapper.py:290-291 | it keeps only rows of the table |
| `PeptidePooling.KeepLastKeepsLast` | lib/CoMPaseD_PeptideMapper.py:290-291 | it keeps every row that no later row shares a key with |
| `PeptidePooling.KeepLastSpec` | lib/CoMPaseD_PeptideMapper.py:290-291 | it keeps exactly the keys, each once, only rows of the table, and the last row of every key |
| `PeptidePooling.KeepLastLowest` | lib/CoMPaseD_PeptideMapper.py:288-291 | on rows sorted by descending MC text, the row kept for a key has the lowest MC text of its key |
| `PeptidePooling.FilteredSpec` | lib/CoMPaseD_PeptideMapper.py:287-291 | the filtered table holds one row for every (peptide, enzyme) of the pool, each a row of the pool with the lowest MC text the pool has for its key |
| `PeptidePooling.FilteredTenOverNine` | lib/CoMPaseD_PeptideMapper.py:287-291 | with rows for ten and nine missed cleavages, text order keeps the row tagged "10" |
| `PeptidePooling.PoolAndFilter` | lib/CoMPaseD_PeptideMapper.py:264-291 | the unfiltered table is the pool of the digests; the sort raises KeyError exactly when the file list has no line; otherwise the filtered table is the filter of the pool |
| `Tools.ConfigTokens` | lib/CoMPaseD_tools.py:29-31 | the text with every ' ', '[' and ']' removed, split on ',': at least one token, none holding those characters or a comma |
| `Tools.RemoveCharKeeps` | lib/CoMPaseD_tools.py:29-30 | removing a character leaves absent every character that was absent |
| `Tools.SplitKeeps` | lib/CoMPaseD_tools.py:31 | the pieces of a split hold only characters of the text |
| `Tools.ConfigToNumericList` | lib/CoMPaseD_tools.py:26-42 | the replace loop, the split and the loop that skips what `float()` rejects give the numeric list of the configuration |
| `Tools.NumericAll` | lib/CoMPaseD_tools.py:33-40 | every token is read exactly when no token is skipped, and then the values are those of all tokens in order |
| `Tools.NumericFrom` | lib/CoMPaseD_tools.py:33-40 | every value returned is the value of one of the tokens |
| `Tools.EmptyConfig` | lib/CoMPaseD_tools.py:29-40 | an empty configuration (one empty token) gives no value |
| `Tools.NumbersRoundTrip` | lib/CoMPaseD_tools.py:26-42 | natural numbers written with `str()` and joined with ',' read back as those numbers |
| `Tools.DigitsJoined` | lib/CoMPaseD_tools.py:29-30 | a join of digit strings holds nothing the replace loop removes |
| `ParamFunctions.ValidationClass.constructor` | lib/CoMPaseD_gui_param_functions.py:14-18 | a new counter has no error and no message |
| `ParamFunctions.ValidationClass.AddError` | lib/CoMPaseD_gui_param_functions.py:20-22 | adding an error counts one more and keeps its message after the earlier ones |
| `ParamFunctions.ValidationClass.GetResult` | lib/CoMPaseD_gui_param_functions.py:24-28 | the result is true exactly when no error was counted, that is when no message was kept |
| `ParamFunctions.CleanText` | lib/CoMPaseD_gui_param_functions.py:447-468 | the cleaned value holds only allowed characters, '-' and ',' |
| `ParamFunctions.CharMessages` | lib/CoMPaseD_gui_param_functions.py:449-467 | a character gives one message when it is not allowed and one more when it is '_' or ';' |
| `ParamFunctions.CleanParameterValues` | lib/CoMPaseD_gui_param_functions.py:447-468 | the loop computes the cleaned value and, in mode 1 only, adds the messages of its characters in order, counting each |
| `ParamFunctions.CleanStep` | lib/CoMPaseD_gui_param_functions.py:449-467 | one more character appends what it becomes and the messages it gives rise to |
| `ParamFunctions.CleanOne` | lib/CoMPaseD_gui_param_functions.py:450-467 | one character: kept if allowed, '_' becoming '-' and ';' becoming ',', with its messages in mode 1 |
| `ParamFunctions.CleanTextKeeps` | lib/CoMPaseD_gui_param_functions.py:447-468 | a value that is already clean is left as it is |
| `ParamFunctions.CleanMessagesNone` | lib/CoMPaseD_gui_param_functions.py:447-468 | cleaning reports nothing exactly when the value is already clean |
| `ParamFunctions.CleanTextIdempotent` | lib/CoMPaseD_gui_param_functions.py:447-468 | when '-' and ',' are allowed and '_' and ';' are not, the cleaned value is clean and cleaning twice is cleaning once |
| `ParamFunctions.CleanTextAppend` | lib/CoMPaseD_gui_param_functions.py:449-467 | cleaning distributes over concatenation |
| `ParamFunctions.CleanTextFilters` | lib/CoMPaseD_gui_param_functions.py:449-467 | without '_' and ';' in the value, cleaning keeps exactly the allowed characters in order |
| `ParamFunctions.Lines` | lib/CoMPaseD_gui_param_functions.py:383 | one "name = value" line per pair, in order |
| `ParamFunctions.Pairs` | lib/CoMPaseD_gui_param_functions.py:381-383 | the (name, text) pair of every attribute, at its position in creation order |
| `ParamFunctions.ParamList` | lib/CoMPaseD_gui_param_functions.py:378-385 | one line per attribute in creation order; the line of an attribute is its name, " = ", its text and a line break |
| `ParamFunctions.ParamListNext` | lib/CoMPaseD_gui_param_functions.py:381-384 | the line of the attribute at position i follows the lines before it |
| `ParamFunctions.Fixed` | lib/CoMPaseD_gui_param_functions.py:397-420 | a `fix_*` method leaves a text: a list joined with ',', a text unchanged |
| `ParamFunctions.FixedSplits` | lib/CoMPaseD_gui_param_functions.py:763-767 | a fixed non-empty list of comma-free items splits back on ',' into the list |
| `ParamFunctions.FixOne` | lib/CoMPaseD_gui_param_functions.py:397-420 | one `fix_*` method fixes its own attribute and keeps every other |
| `ParamFunctions.FixAll` | lib/CoMPaseD_gui_param_functions.py:362-366 | the five fixes leave every list attribute fixed and every other unchanged |
| `ParamFunctions.FixAllIdempotent` | lib/CoMPaseD_gui_param_functions.py:397-420 | the fixes join only what is still a list, so fixing twice is fixing once |
| `ParamFunctions.Pieces` | lib/CoMPaseD_gui_param_functions.py:731-734 | one stripped piece per piece of the row split on '=' |
| `ParamFunctions.Tuples` | lib/CoMPaseD_gui_param_functions.py:729-735 | one tuple of stripped pieces per kept row |
| `ParamFunctions.ReadParamRows` | lib/CoMPaseD_gui_param_functions.py:722-736 | the reader keeps the right-stripped rows that are not the header and hold '=', splits and strips them, and builds the dictionary or fails |
| `ParamFunctions.KeepRows` | lib/CoMPaseD_gui_param_functions.py:722-728 | the first loop keeps exactly those rows, right-stripped, in order |
| `ParamFunctions.StripPieces` | lib/CoMPaseD_gui_param_functions.py:731-734 | the pieces of a row are stripped in place |
| `ParamFunctions.BuildDict` | lib/CoMPaseD_gui_param_functions.py:736 | `dict()` of the tuples, failing with ValueError on the first that is not a pair |
| `ParamFunctions.DictOfKeys` | lib/CoMPaseD_gui_param_functions.py:736 | the keys of the dictionary are exactly the keys of the pairs |
| `ParamFunctions.DictOfLast` | lib/CoMPaseD_gui_param_functions.py:736 | a key holds the value of its last pair: a later duplicate overrides an earlier one |
| `ParamFunctions.KeptRowsAppend` | lib/CoMPaseD_gui_param_functions.py:724-728 | keeping rows distributes over concatenation |
| `ParamFunctions.ParamDictSkips` | lib/CoMPaseD_gui_param_functions.py:724-728 | the header line, and any line without '=', is ignored wherever it stands |
| `ParamFunctions.ParamDictSkipsFirst` | lib/CoMPaseD_gui_param_functions.py:724-728 | a first row that is not kept is ignored |
| `ParamFunctions.DictFromSnoc` | lib/CoMPaseD_gui_param_functions.py:735-736 | one more tuple fails the dictionary when it is not a pair, and otherwise adds or overrides its key |
| `ParamFunctions.ParamDictSnoc` | lib/CoMPaseD_gui_param_functions.py:722-736 | reading one more row: a row without '=' (or the header) changes nothing, a row with one '=' adds or overrides its key, a row with two or more makes the read fail |
| `ParamFunctions.ParamDictOk` | lib/CoMPaseD_gui_param_functions.py:729-736 | the read succeeds exactly when every kept row holds a single '=' |
| `ParamFunctions.LineStripped` | lib/CoMPaseD_gui_param_functions.py:725 | right-stripping a written line removes its line break, and the blank before an empty value |
| `ParamFunctions.LineRead` | lib/CoMPaseD_gui_param_functions.py:725-734 | a written line is kept and reads back as its name and value |
| `ParamFunctions.HeaderRow` | lib/CoMPaseD_gui_param_functions.py:369-370 | the header row written first is not kept when reading |
| `ParamFunctions.KeptRowsAll` | lib/CoMPaseD_gui_param_functions.py:724-728 | rows that are all kept are kept as they are, right-stripped |
| `ParamFunctions.PairTuples` | lib/CoMPaseD_gui_param_functions.py:735 | each pair as the two-element tuple a line splits into |
| `ParamFunctions.LinesTuples` | lib/CoMPaseD_gui_param_functions.py:722-735 | the written lines are all kept and split into their pairs |
| `ParamFunctions.DictFromPairs` | lib/CoMPaseD_gui_param_functions.py:736 | `dict()` of two-element tuples is the dictionary of the pairs |
| `ParamFunctions.RowsRoundTrip` | lib/CoMPaseD_gui_param_functions.py:722-736 | writing pairs as a parameter file and reading it back gives the dictionary of the pairs, when no name or value holds '=' or has surrounding whitespace |
| `ParamFunctions.RowsReadBack` | lib/CoMPaseD_gui_param_functions.py:722-736 | with distinct names, every name of the file reads back its own value |
| `ParamFunctions.CleanItems` | lib/CoMPaseD_gui_param_functions.py:480-520 | every item of a list cleaned, in order |
| `ParamFunctions.CleanValue` | lib/CoMPaseD_gui_param_functions.py:480-520 | a list value has its items cleaned and stays a list; a text is left alone |
| `ParamFunctions.Verdict` | lib/CoMPaseD_gui_param_functions.py:550-556 | validation passes exactly when no message was reported, and otherwise returns the count and the messages |
| `ParamFunctions.ItemMessagesNone` | lib/CoMPaseD_gui_param_functions.py:480-520 | cleaning the items of a list reports nothing exactly when every item is already clean |
| `ParamFunctions.ValidateFrame` | lib/CoMPaseD_gui_param_functions.py:478-520 | validation rewrites only the cleaned attributes and keeps list attributes lists; the frequency list is never stored (line 504 stores the maximal MCs instead), and validation raises exactly when the frequencies are a list but the maximal MCs are not (UnboundLocalError) |
| `ParamFunctions.ValidateFrequencyQuirk` | lib/CoMPaseD_gui_param_functions.py:499-504 | in mode 1 an unclean frequency is reported, yet left as it was, so validation fails |
| `ParamFunctions.PerlPathsCheckedWhenOff` | lib/CoMPaseD_gui_param_functions.py:431-436 | the perl switch counts as on when it is any non-empty text, so with it set to "False" a missing clips script is still reported and validation fails |
| `ParamFunctions.ValidateSettled` | lib/CoMPaseD_gui_param_functions.py:478-531 | validation does not rewrite values that are already settled |
| `ParamFunctions.ListSettles` | lib/CoMPaseD_gui_param_functions.py:480-520 | a list whose cleaning reported nothing is cleaned to a list that cleaning keeps |
| `ParamFunctions.TextSettles` | lib/CoMPaseD_gui_param_functions.py:522-531 | a text whose cleaning reported nothing is cleaned to itself |
| `ParamFunctions.ValidatePassedSettles` | lib/CoMPaseD_gui_param_functions.py:423-556 | parameters that pass validation in mode 1 come out settled |
| `ParamFunctions.ValidateIdempotent` | lib/CoMPaseD_gui_param_functions.py:423-556 | validating parameters that passed once leaves them as they are |
| `ParamFunctions.Defaults` | lib/CoMPaseD_gui_param_functions.py:38-80 | the defaults: the five protease-table attributes are lists of five entries, every other is text, five proteases, perl mapping and threads off |
| `ParamFunctions.NameInjective` | lib/CoMPaseD_gui_param_functions.py:47-80 | different attributes have different names in a parameter file |
| `ParamFunctions.NameRead` | lib/CoMPaseD_gui_param_functions.py:381-383 | every attribute is recognised again from its name |
| `ParamFunctions.NamesDistinct` | lib/CoMPaseD_gui_param_functions.py:381-384 | the names of a written file are pairwise different |
| `ParamFunctions.NameStorable` | lib/CoMPaseD_gui_param_functions.py:731-734 | every name survives being written and read back |
| `ParamFunctions.RequiredKeys` | lib/CoMPaseD_gui_param_functions.py:737-745 | a dictionary with the required keys holds the key of every attribute read from the file |
| `ParamFunctions.Read` | lib/CoMPaseD_gui_param_functions.py:755-778 | the value read for an attribute: a list parameter is split on ',' (and joins back to the text), any other is the text |
| `ParamFunctions.Loaded` | lib/CoMPaseD_gui_param_functions.py:755-783 | the perl script paths are read only while perl mapping is "True", threads are switched off, and the key length and I/L switch are never read |
| `ParamFunctions.LoadedReads` | lib/CoMPaseD_gui_param_functions.py:755-778 | every attribute `load_params` always sets holds the value read for it |
| `ParamFunctions.ParamDictError` | lib/CoMPaseD_gui_param_functions.py:729-736 | reading rows fails only with ValueError |
| `ParamFunctions.LoadErrors` | lib/CoMPaseD_gui_param_functions.py:745-786 | loading raises ValueError exactly when the rows do not make a dictionary with every required key, and then changes nothing; it raises KeyError exactly when perl mapping is on and a script path is missing; it never fails in validation |
| `ParamFunctions.SavedFileReads` | lib/CoMPaseD_gui_param_functions.py:368-371 | a saved file reads into a dictionary holding every name with the text of its attribute, so it has every required key |
| `ParamFunctions.SavedFileLoads` | lib/CoMPaseD_gui_param_functions.py:720-788 | a saved file loads into any parameter object without an error |
| `ParamFunctions.LoadSucceeds` | lib/CoMPaseD_gui_param_functions.py:745-786 | rows that read as a dictionary with the required keys and both perl script paths load without an error |
| `ParamFunctions.SaveLoadRoundTrip` | lib/CoMPaseD_gui_param_functions.py:755-778 | saving then reading: when the list parameters are non-empty lists of comma-free items and the others texts, each attribute reads back as it was before the lists were joined |
| `ParamFunctions.LoadedOptional` | lib/CoMPaseD_gui_param_functions.py:756-783 | the perl script paths (while perl mapping is on) and the two optional settings end as in the file |
| `ParamFunctions.LoadedFrom` | lib/CoMPaseD_gui_param_functions.py:755-783 | loading a dictionary that reads back every attribute of some values: the attributes the file sets end as there; the perl switch, key length, I/L switch and digestion result file stay as they were; threads are off |
| `ParamFunctions.LoadAfterSave` | lib/CoMPaseD_gui_param_functions.py:720-788 | loading a saved file gives the saved values in every attribute the file sets and keeps the object's own perl switch, key length, I/L switch and digestion result file |
| `ParamFunctions.FixAllSettled` | lib/CoMPaseD_gui_param_functions.py:397-420 | fixing settled values leaves them settled |
| `ParamFunctions.SaveIdempotent` | lib/CoMPaseD_gui_param_functions.py:358-373 | saving parameters that passed validation, then saving again, writes the same values |
| `ParamFunctions.FixAllJoinsFreq` | lib/CoMPaseD_gui_param_functions.py:407-410 | after fixing, the frequency attribute is text |
| `ParamFunctions.ValidateTextFreqOk` | lib/CoMPaseD_gui_param_functions.py:499-504 | validation of values whose frequency attribute is text reaches a verdict |
| `ParamFunctions.CleanListValues` | lib/CoMPaseD_gui_param_functions.py:480-520 | each item of a list cleaned, with its messages reported in mode 1 |
| `ParamFunctions.CleanValueReported` | lib/CoMPaseD_gui_param_functions.py:480-520 | one list loop of `validate_params`: a list value cleaned with its reports, a text left alone |
| `ParamFunctions.Check` | lib/CoMPaseD_gui_param_functions.py:429-438 | a failed check adds its message, a passed one nothing |
| `ParamFunctions.CheckPaths` | lib/CoMPaseD_gui_param_functions.py:427-444 | the path checks report the missing tools (mode 1), FASTA file and output folder, in that order |
| `ParamFunctions.CheckTools` | lib/CoMPaseD_gui_param_functions.py:428-436 | in mode 1 a missing crux binary is reported, then, when the perl switch is any non-empty text, a missing clips and a missing promast script |
| `ParamFunctions.CheckBins` | lib/CoMPaseD_gui_param_functions.py:525-527 | one report for each bin bound that is not numeric |
| `ParamFunctions.CheckNumbers` | lib/CoMPaseD_gui_param_functions.py:533-548 | the reports of the weighting factors and, when DeepMSPeptide is on, of its weight and model path |
| `ParamFunctions.RequiredPresent` | lib/CoMPaseD_gui_param_functions.py:737-745 | true exactly when every required key is in the dictionary |
| `ParamFunctions.Parameter.constructor` | lib/CoMPaseD_gui_param_functions.py:38-80 | a new parameter object holds the default values |
| `ParamFunctions.Parameter.Fix` | lib/CoMPaseD_gui_param_functions.py:397-420 | one `fix_*` method joins its list attribute and keeps every other |
| `ParamFunctions.Parameter.FixAllParams` | lib/CoMPaseD_gui_param_functions.py:362-366 | the five fixes in their order |
| `ParamFunctions.Parameter.GetParamList` | lib/CoMPaseD_gui_param_functions.py:378-385 | the lines of the parameter file, one per attribute in creation order |
| `ParamFunctions.Parameter.CleanListParams` | lib/CoMPaseD_gui_param_functions.py:478-520 | the five list loops; they stop with UnboundLocalError exactly when the frequencies are a list but the maximal MCs are not, and otherwise clean every list and report in order |
| `ParamFunctions.Parameter.CleanTextParams` | lib/CoMPaseD_gui_param_functions.py:522-531 | the bins cleaned and their bounds checked, then the not-expressed fractions cleaned |
| `ParamFunctions.Parameter.ValidateParams` | lib/CoMPaseD_gui_param_functions.py:423-556 | validation leaves the values and returns (or raises) what the validation specification says |
| `ParamFunctions.Parameter.SaveParams` | lib/CoMPaseD_gui_param_functions.py:358-373 | saving validates in mode 1; an exception propagates before anything is fixed or written; otherwise the lists are fixed and the file is the header and the parameter lines |
| `ParamFunctions.Parameter.AssignRest` | lib/CoMPaseD_gui_param_functions.py:760-783 | the assignments after the tool paths: each attribute its read value, the optional ones only when present |
| `ParamFunctions.Parameter.LoadParams` | lib/CoMPaseD_gui_param_functions.py:720-788 | loading reads the rows, checks the required keys, assigns and validates, as the load specification says |
| `Cli.LoadForCli` | CoMPaseD_cli.py:78-86 | whatever loading raises reaches the caller as a RuntimeError |
| `Cli.LoadForCliFails` | CoMPaseD_cli.py:78-86 | loading fails exactly when the rows do not make a dictionary with every required key, or perl mapping is on and a script path is missing |
| `Cli.SavedFileLoadsAtCli` | CoMPaseD_cli.py:78-86 | a file written by the parameter object loads at the command line |
| `Cli.LoadedOk` | CoMPaseD_cli.py:78-86 | rows with all required keys and both perl script paths load at the command line |
| `Cli.ParseCommaList` | CoMPaseD_cli.py:243-253 | the option split on ',': at least one piece, none holding ',', and the pieces join back to the option |
| `Cli.ParseJoined` | CoMPaseD_cli.py:302-306 | a non-empty list of comma-free entries, joined with ',', parses back to itself |
| `Cli.McLenStep` | CoMPaseD_cli.py:262-266 | the frequencies of enzyme i follow those of the enzymes before it |
| `Cli.McLenBounds` | CoMPaseD_cli.py:262-266 | the count for the first i enzymes is at most the total |
| `Cli.McBounds` | CoMPaseD_cli.py:258-266 | the first loop counts max MC + 1 frequencies per enzyme (none for a negative maximum), and the start and stop positions of enzyme i are the counts before and after it |
| `Cli.Slice` | CoMPaseD_cli.py:293 | the values of enzyme i: as many as that enzyme takes |
| `Cli.SliceAt` | CoMPaseD_cli.py:293 | the values of enzyme i sit between its start and stop positions |
| `Cli.Slices` | CoMPaseD_cli.py:292-297 | the values of every enzyme, in enzyme order |
| `Cli.SlicesPrefix` | CoMPaseD_cli.py:292-297 | the groups of the first k enzymes, one after the other, are the values up to the k-th stop position |
| `Cli.SlicesFlatten` | CoMPaseD_cli.py:286-297 | once the count matches, each value goes to exactly one enzyme: the groups one after the other are the values |
| `Cli.McItems` | CoMPaseD_cli.py:258 | `int()` iterates over the items of a list, and over the characters of a text |
| `Cli.ParseMcFreqCases` | CoMPaseD_cli.py:255-299 | ValueError exactly when a maximal MC is no integer or a frequency no float; otherwise RuntimeError exactly when the number of frequencies is not the number the enzymes take; otherwise one bracketed group per enzyme holding that enzyme's share of the frequencies |
| `Cli.RegroupFreqs` | CoMPaseD_cli.py:291-299 | the group loop builds "[v1,v2,...]" of each enzyme's slice |
| `Cli.ParseMcFreqList` | CoMPaseD_cli.py:255-299 | `parse_mc_freq_list` on a text option computes the parse specification |
| `Cli.UnbracketedAppend` | CoMPaseD_cli.py:279-280 | removing the brackets distributes over concatenation |
| `Cli.UnbracketedFree` | CoMPaseD_cli.py:279-280 | a text without brackets is kept |
| `Cli.UnbracketedJoin` | CoMPaseD_cli.py:279-280 | removing the brackets of a join removes them from each piece |
| `Cli.UnbracketedGroup` | CoMPaseD_cli.py:279-296 | a group's text with its brackets removed is its values joined with ',' |
| `Cli.JoinFlatten` | CoMPaseD_cli.py:282-295 | joining joins of non-empty lists is joining all their pieces |
| `Cli.FlattenShown` | CoMPaseD_cli.py:294 | showing the values group by group is showing all of them |
| `Cli.ParseRealsShown` | CoMPaseD_cli.py:283-294 | values whose `str()` reads back as them are read back by `float()` |
| `Cli.SliceElem` | CoMPaseD_cli.py:293 | value j of group i is value j after the groups before it |
| `Cli.ParseMcFreqRoundTrip` | CoMPaseD_cli.py:255-299 | the groups joined with ',' parse back to the same groups, when every enzyme takes at least one frequency and `str()` of each frequency reads back as it |
| `Cli.OverridesFrame` | CoMPaseD_cli.py:118-139 | no override touches an attribute other than the five lists and the sampling basis |
| `Cli.OverridesBasis` | CoMPaseD_cli.py:130-139 | a number and a fraction given together is a RuntimeError; a number alone sets the sizes and the basis "number", a fraction alone the coverages and the basis "coverage", neither keeps the basis |
| `Cli.OverridesLists` | CoMPaseD_cli.py:118-128 | a given enzyme or MC option replaces its list by its comma pieces, and a given frequency option that parses replaces the frequencies by one group per maximal MC then in force |
| `Cli.ApplyOverrides` | CoMPaseD_cli.py:118-139 | the overrides written into the parameter object, stopping at the first exception |
| `Cli.Tasks` | CoMPaseD_cli.py:226-240 | the tasks run in the order export, digest, analysis |
| `Cli.TasksSelected` | CoMPaseD_cli.py:226-240 | with no flag every task runs, export then digest then analysis; with some flag exactly the flagged tasks run; each task runs at most once |
| `ExportFunctions.GroupNameInjective` | lib/CoMPaseD_gui_export_functions.py:109-111 | "group_i" names of different numbers differ, and every one begins with 'g' |
| `ExportFunctions.GroupNames` | lib/CoMPaseD_gui_export_functions.py:109-111 | "group_1" to "group_k", in order |
| `ExportFunctions.BinLabels` | lib/CoMPaseD_gui_export_functions.py:45-54 | three stops give small/large, four small/medium/large; otherwise, and always in `load_proteins_cli`, the "group_i" labels follow the named ones, one per stop but the last |
| `ExportFunctions.BinLabelsDistinct` | lib/CoMPaseD_gui_export_functions.py:105-111 | the labels are pairwise distinct and none is "unknown" |
| `ExportFunctions.NamedBinsDistinct` | lib/CoMPaseD_gui_export_functions.py:105-108 | the named labels are distinct, none begins with 'g' and none is "unknown" |
| `ExportFunctions.LabelsAppendDistinct` | lib/CoMPaseD_gui_export_functions.py:109-111 | named labels followed by "group_1".."group_k" are all distinct |
| `ExportFunctions.Stops` | lib/CoMPaseD_gui_export_functions.py:52-53 | when the labels are numbered, every stop but the last is truncated to an integer; otherwise the stops are kept |
| `ExportFunctions.MakeBins` | lib/CoMPaseD_gui_export_functions.py:104-111 | the label list and the `bin_pos` loop give the stops and labels of the specification |
| `ExportFunctions.OccurrencesDistinct` | lib/CoMPaseD_gui_export_functions.py:63 | in distinct stops each stop occurs once |
| `ExportFunctions.OccurrencesRepeated` | lib/CoMPaseD_gui_export_functions.py:63 | a repeated stop occurs at least twice |
| `ExportFunctions.MaxOf` | lib/CoMPaseD_gui_export_functions.py:67 | `max(bin_list)` is one of the stops and no stop exceeds it |
| `ExportFunctions.ScanBelow` | lib/CoMPaseD_gui_export_functions.py:62-75 | a protein no longer than the remaining stops changes nothing |
| `ExportFunctions.ScanAbove` | lib/CoMPaseD_gui_export_functions.py:65-71 | a protein longer than every stop is labelled "unknown", which joins the labels at most once |
| `ExportFunctions.ScanBetween` | lib/CoMPaseD_gui_export_functions.py:62-75 | with increasing stops a protein with stop i < length <= stop i+1 gets label i |
| `ExportFunctions.ScanAmbiguous` | lib/CoMPaseD_gui_export_functions.py:63 | a stop value that occurs twice makes the `np.where` conversion fail, when every bin has a label |
| `ExportFunctions.LoadProteins` | lib/CoMPaseD_gui_export_functions.py:93-148 | reading the bins, making the labels, then placing every protein computes the load specification |
| `ExportFunctions.PlaceAll` | lib/CoMPaseD_gui_export_functions.py:115-136 | the loop over the proteins, each one's label carried on to the next |
| `ExportFunctions.PlaceOne` | lib/CoMPaseD_gui_export_functions.py:116-136 | one protein: the stops scanned for its length, its row appended with the label found |
| `ExportFunctions.ScanStops` | lib/CoMPaseD_gui_export_functions.py:119-132 | the inner loop over the stops computes the scan specification |
| `ExportFunctions.PlaceBetween` | lib/CoMPaseD_gui_export_functions.py:119-136 | a protein within a bin of increasing stops gets that bin's label and leaves it for the next protein |
| `ExportFunctions.PlaceAbove` | lib/CoMPaseD_gui_export_functions.py:122-136 | a protein longer than every stop is labelled "unknown" |
| `ExportFunctions.PlaceInherits` | lib/CoMPaseD_gui_export_functions.py:115-136 | a protein in no bin inherits the label of the protein before it; the first such protein, before any label, fails (tmp_group unbound) |
| `ExportFunctions.LoadAmbiguous` | lib/CoMPaseD_gui_export_functions.py:113-148 | repeated stop values make the load fail as soon as there is a protein |
| `ExportFunctions.PlaceFromRows` | lib/CoMPaseD_gui_export_functions.py:115-136 | from protein k on: one row per protein, in order, and "unknown" added at most once |
| `ExportFunctions.ScanLabels` | lib/CoMPaseD_gui_export_functions.py:124-128 | the inner loop only ever adds "unknown" to the label list, and only once |
| `ExportFunctions.LoadRows` | lib/CoMPaseD_gui_export_functions.py:138-145 | a successful load has one row per protein in FASTA order, with its identifier and length, and the label list with "unknown" appended at most once |
| `ExportFunctions.PyRound` | lib/CoMPaseD_gui_export_functions.py:171 | Python's `round()`: within a half of its argument, a half going to the even neighbour |
| `ExportFunctions.KeepCount` | lib/CoMPaseD_gui_export_functions.py:171-173 | the kept share is the rounded 100 - fraction percent of the group, and at least one |
| `ExportFunctions.DiscardCount` | lib/CoMPaseD_gui_export_functions.py:174 | the discarded count is the rest of the group, never all of a non-empty group |
| `ExportFunctions.Zeroed` | lib/CoMPaseD_gui_export_functions.py:174-180 | a group really loses fewer proteins than it has, and an empty group none |
| `ExportFunctions.ZeroedBounds` | lib/CoMPaseD_gui_export_functions.py:171-180 | with no fraction left out nothing is lost; with all left out one protein stays |
| `ExportFunctions.GroupIndex` | lib/CoMPaseD_gui_export_functions.py:176 | the rows of a group, ascending: exactly the rows with that label |
| `ExportFunctions.DiscardGroup` | lib/CoMPaseD_gui_export_functions.py:177-186 | one group: the discarded count of rows popped from the end of the shuffled index and set to 0, the rest kept; the zeroed and kept rows are together the group's rows |
| `ExportFunctions.SimulateColumn` | lib/CoMPaseD_gui_export_functions.py:161-186 | one sampling column: every row 1.0, then for each (group, fraction) pair the rows to leave out set to 0.0; every row is either kept or zeroed |
| `ExportFunctions.KeptStep` | lib/CoMPaseD_gui_export_functions.py:184-186 | the rows kept and zeroed so far, and those of one more group, account for one more group's rows |
| `ExportFunctions.MasksExtend` | lib/CoMPaseD_gui_export_functions.py:184 | zeroing one more group on a mask gives the mask of all the groups |
| `ExportFunctions.ColumnNamesDistinct` | lib/CoMPaseD_gui_export_functions.py:161-162 | the sampling column names are distinct |
| `ExportFunctions.SimulateAbundance` | lib/CoMPaseD_gui_export_functions.py:151-186 | columns Random_sampling_1 to Random_sampling_N (none for N <= 0), each zeroing its own choice of rows |
| `ExportFunctions.SimulateAbundanceCli` | lib/CoMPaseD_gui_export_functions.py:151-186 | raises ValueError exactly when the dynamic range is not a float or the sampling number not an int; otherwise the columns Random_sampling_1 to Random_sampling_N, each a simulated weight column |
| `Dmsp.CodeLetter` | lib/CoMPaseD_DMSP.py:19-20 | every code of `aa_dict` lies in 1..22 and names its letter back |
| `Dmsp.LetterCode` | lib/CoMPaseD_DMSP.py:19-20 | every code in 1..22 belongs to a letter of `aa_dict` |
| `Dmsp.CodeInjective` | lib/CoMPaseD_DMSP.py:19-20 | different letters have different codes |
| `Dmsp.Codes` | lib/CoMPaseD_DMSP.py:31-37 | one code in 1..22 per known letter of the peptide, the letters `aa_dict` lacks dropped |
| `Dmsp.Known` | lib/CoMPaseD_DMSP.py:33-36 | the letters kept are exactly those `aa_dict` knows |
| `Dmsp.CodesDecode` | lib/CoMPaseD_DMSP.py:31-37 | decoding the codes gives back the known letters in order; codes and unknown letters together account for the peptide's length |
| `Dmsp.KnownOnly` | lib/CoMPaseD_DMSP.py:31-37 | a peptide of known letters only is encoded without loss and adds no special entry |
| `Dmsp.Repeat` | lib/CoMPaseD_DMSP.py:35-36 | the peptide once per unknown letter |
| `Dmsp.Codify` | lib/CoMPaseD_DMSP.py:28-40 | every peptide is encoded or counted as skipped; the encoded ones are exactly those no longer than `max_aa`, in order, each with its codes |
| `Dmsp.ZeroCodes` | lib/CoMPaseD_DMSP.py:41 | the padding: `n` zeros |
| `Dmsp.PadRow` | lib/CoMPaseD_DMSP.py:41 | post-padding with 0 to `max_aa`: every row has length `max_aa`; a row that fits is kept as its prefix, zeros after it |
| `Dmsp.PaddedRows` | lib/CoMPaseD_DMSP.py:28-41 | each padded row is the encoded peptide's codes, then zeros, which code no letter |
| `Dmsp.CodifyPeptide` | lib/CoMPaseD_DMSP.py:30-37 | the inner loop: the codes of one peptide, and the peptide once per unknown letter |
| `Dmsp.LoadPepAndCodify` | lib/CoMPaseD_DMSP.py:18-42 | `load_pep_and_codify` computes the encoding specification, its padded rows, skipped count, lines and special entries |
| `Dmsp.SumBounds` | lib/CoMPaseD_DMSP.py:77 | a sum of values within bounds lies within count times the bounds |
| `Dmsp.MeanBounds` | lib/CoMPaseD_DMSP.py:77 | the mean exists exactly for a non-empty list and lies within the bounds of its values |
| `Dmsp.RawPredictions` | lib/CoMPaseD_DMSP.py:64 | one raw prediction per encoded peptide, in line order |
| `Dmsp.RunDeepMSPep` | lib/CoMPaseD_DMSP.py:60-91 | encode, predict, mean-fill the special entries and invert: the report specification |
| `Dmsp.Predictions` | lib/CoMPaseD_DMSP.py:65-87 | the loops after the prediction: the peptide column, the mean fill and the inversion |
| `Dmsp.ReportRows` | lib/CoMPaseD_DMSP.py:68-91 | the report lists the encoded peptides in input order, then the special entries; each encoded peptide carries 1 - its raw prediction and each special entry 1 - the mean |
| `Dmsp.ReportInUnit` | lib/CoMPaseD_DMSP.py:77-87 | raw predictions between 0 and 1 are reported between 0 and 1 |
| `Dmsp.ShortPeptidesMembers` | lib/CoMPaseD_DMSP.py:28-40 | a peptide is reported exactly when it is in the input and no longer than `max_aa` |
| `ExperimentalAnalysis.EnzymeCode` | Manuscript_Scripts/CoMPaseD_vs_Experimental_AnalysisScript_subcell.py:170-177 | one character per enzyme name, '1' exactly when the name occurs in the text and '0' otherwise |
| `ExperimentalAnalysis.CodeOf` | Manuscript_Scripts/CoMPaseD_vs_Experimental_AnalysisScript_subcell.py:171-175 | the loop over the enzyme names computes the code |
| `ExperimentalAnalysis.ExpCodes` | Manuscript_Scripts/CoMPaseD_vs_Experimental_AnalysisScript_subcell.py:163-177 | the code of every experimental file: lower-cased, "chymotrypsin" replaced by "chymTrps", then coded, in file order |
| `ExperimentalAnalysis.InsilicoCodes` | Manuscript_Scripts/CoMPaseD_vs_Experimental_AnalysisScript_subcell.py:473-491 | the code of every in-silico row's protease combination after the same replacement, in row order |
| `ExperimentalAnalysis.ContainsSkip` | Manuscript_Scripts/CoMPaseD_vs_Experimental_AnalysisScript_subcell.py:172 | a name whose first character does not occur in `x` occurs in `x + y` only within `y` |
| `ExperimentalAnalysis.ContainsFrom` | Manuscript_Scripts/CoMPaseD_vs_Experimental_AnalysisScript_subcell.py:172 | a text contains whatever any of its suffixes contains |
| `ExperimentalAnalysis.EditPrefix` | Manuscript_Scripts/CoMPaseD_vs_Experimental_AnalysisScript_subcell.py:167 | a prefix without 'c' of the edited text is a prefix of the text itself |
| `ExperimentalAnalysis.EditLeadingC` | Manuscript_Scripts/CoMPaseD_vs_Experimental_AnalysisScript_subcell.py:167 | an edited text that begins with "chymotrypsin" begins with 'c' |
| `ExperimentalAnalysis.EditTrypsinSound` | Manuscript_Scripts/CoMPaseD_vs_Experimental_AnalysisScript_subcell.py:166-168 | the replacement never makes "trypsin" appear: the trypsin bit is set only for a name that contains "trypsin" |
| `ExperimentalAnalysis.LeadingChymotrypsin` | Manuscript_Scripts/CoMPaseD_vs_Experimental_AnalysisScript_subcell.py:166-168 | a leading "chymotrypsin" becomes "chymTrps", sets the chymotrypsin bit and leaves the trypsin bit to the rest of the name |
| `ExperimentalAnalysis.ChymotrypsinFile` | Manuscript_Scripts/CoMPaseD_vs_Experimental_AnalysisScript_subcell.py:164-177 | a file whose lower-cased name starts with "chymotrypsin" is coded as using chymotrypsin, and as trypsin only through the rest of its name |
| `ExperimentalAnalysis.TrypsinBitSound` | Manuscript_Scripts/CoMPaseD_vs_Experimental_AnalysisScript_subcell.py:164-177 | a set trypsin bit means "trypsin" occurs in the lower-cased file name |
| `ExperimentalAnalysis.TrypsinOnlyMeaning` | Manuscript_Scripts/CoMPaseD_vs_Experimental_AnalysisScript_subcell.py:328 | the code "00001" means trypsin and none of the other four enzymes |
| `ExperimentalAnalysis.TrypsinFiles` | Manuscript_Scripts/CoMPaseD_vs_Experimental_AnalysisScript_subcell.py:326-329 | `exp_dict_try`: exactly the files coded "00001", in file order |
| `ExperimentalAnalysis.TrypsinDicts` | Manuscript_Scripts/CoMPaseD_vs_Experimental_AnalysisScript_subcell.py:327-329 | the loop collecting the trypsin-only files computes them |
| `ExperimentalAnalysis.WhereMembers` | Manuscript_Scripts/CoMPaseD_vs_Experimental_AnalysisScript_subcell.py:221-226 | a boolean selection holds exactly the accepted rows |
| `ExperimentalAnalysis.CleanedMembers` | Manuscript_Scripts/CoMPaseD_vs_Experimental_AnalysisScript_subcell.py:221-226 | a row survives the cleaning exactly when it is no decoy, no iRT entry and, when a positive tag is given, carries it |
| `ExperimentalAnalysis.FileStats` | Manuscript_Scripts/CoMPaseD_vs_Experimental_AnalysisScript_subcell.py:236-277 | one set of statistics for every group, one group per stop but the last |
| `ExperimentalAnalysis.CollectStats` | Manuscript_Scripts/CoMPaseD_vs_Experimental_AnalysisScript_subcell.py:236-277 | the loop over the grouping stops of one file computes them |
| `ExperimentalAnalysis.GroupMembers` | Manuscript_Scripts/CoMPaseD_vs_Experimental_AnalysisScript_subcell.py:240 | a row is in group k exactly when its length lies in the inclusive range stop k + 1 to stop k+1 + 1 |
| `ExperimentalAnalysis.BorderInTwoGroups` | Manuscript_Scripts/CoMPaseD_vs_Experimental_AnalysisScript_subcell.py:240-251 | a protein one longer than a stop is counted in the groups on both sides of it, though the recorded upper bound of the lower group is the stop |
| `ExperimentalAnalysis.FilteredStats` | Manuscript_Scripts/CoMPaseD_vs_Experimental_AnalysisScript_subcell.py:265-277 | the filtered statistics keep the group's rows with more than one peptide: no more proteins, at least two peptides per protein, and no more peptides |
| `ExperimentalAnalysis.DetectedSums` | Manuscript_Scripts/CoMPaseD_vs_Experimental_AnalysisScript_subcell.py:265 | the rows with more than one peptide carry at least two peptides each and, with no negative counts, no more than all rows |
| `ExperimentalAnalysis.CollectedShaped` | Manuscript_Scripts/CoMPaseD_vs_Experimental_AnalysisScript_subcell.py:216-277 | the statistics of all files, collected with one grouping, all have the same shape |
| `ExperimentalAnalysis.TryRows` | Manuscript_Scripts/CoMPaseD_vs_Experimental_AnalysisScript_subcell.py:336-380 | one row per trypsin file for a file and group |
| `ExperimentalAnalysis.PairScores` | Manuscript_Scripts/CoMPaseD_vs_Experimental_AnalysisScript_subcell.py:332-380 | the scoring loops over every file, group and trypsin file compute the row specification |
| `ExperimentalAnalysis.PairGroups` | Manuscript_Scripts/CoMPaseD_vs_Experimental_AnalysisScript_subcell.py:334-380 | the loop over the groups of one file |
| `ExperimentalAnalysis.PairWithTrypsin` | Manuscript_Scripts/CoMPaseD_vs_Experimental_AnalysisScript_subcell.py:336-380 | the innermost loop: one file and group scored against every trypsin file in turn |
| `ExperimentalAnalysis.GroupRowsLen` | Manuscript_Scripts/CoMPaseD_vs_Experimental_AnalysisScript_subcell.py:334-336 | a file with k groups gives k times the number of trypsin files rows |
| `ExperimentalAnalysis.FileRowsLen` | Manuscript_Scripts/CoMPaseD_vs_Experimental_AnalysisScript_subcell.py:332-336 | e files give e times groups times trypsin files rows |
| `ExperimentalAnalysis.GroupRowsAt` | Manuscript_Scripts/CoMPaseD_vs_Experimental_AnalysisScript_subcell.py:334-380 | the row of group k0 and trypsin file j of one file sits at k0 * n + j and is the row scoring that file, group and trypsin file |
| `ExperimentalAnalysis.PairRowsAt` | Manuscript_Scripts/CoMPaseD_vs_Experimental_AnalysisScript_subcell.py:332-380 | every (file, group, trypsin file) triple, a trypsin file paired with itself included, has its own row at (e * groups + k) * n + j |
| `ExperimentalAnalysis.FileRowsPrefix` | Manuscript_Scripts/CoMPaseD_vs_Experimental_AnalysisScript_subcell.py:332 | the rows of the earlier files come first |
| `ExperimentalAnalysis.FileRowsLast` | Manuscript_Scripts/CoMPaseD_vs_Experimental_AnalysisScript_subcell.py:332-380 | the rows of file e0 follow those of the files before it, group after group |
| `ExperimentalAnalysis.TableColumns` | Manuscript_Scripts/CoMPaseD_vs_Experimental_AnalysisScript_subcell.py:423-428 | one table line per row, and the filtered-score column repeats the unfiltered scores |

## Left out

General:

- File and console I/O: FASTA, TSV and pickle reading and writing, `print` warnings, log lines and file renames. The model starts from the records, rows and texts those would give and ends with the values that would be written.
- The GUI (Qt widgets, message boxes, progress windows, plots) and the configuration-file helpers, which only test whether paths exist.
- External programs: crux, the perl clips and promast scripts, `Popen` and `multiprocessing`. The model builds their command lines; it does not run them.
- The file system: `os.path.isfile`, directory checks, `makedirs`, `chdir` and `rmtree`. Path tests are function parameters (`isFile`, `dirUsable`).
- Strings.ParseInt: Python's `int()` also accepts single underscores between digits (`1_000`); the model reads optional whitespace, a sign and digits only.
- Floating point: numbers are `real`. `float()` is a decimal parser for optional sign, digits and one '.'; exponents, `inf`, `nan` and underscores are not read. Python's text form of a float is the parameter `show`. The `eval`-based `test_float` is the parameter `numeric`.
- pandas NaN (from a left merge or a division by a zero total) is `None`.
- Randomness: the shuffle, and which rows a weighted draw returns, are a nondeterministic choice. The model keeps the size, membership, distinctness and positive weight of what is drawn, and the errors the weights make `sample` raise.
- Lower-casing covers the ASCII letters only; Python's `str.lower` also maps other Unicode capitals. This affects `Strings.Lower` wherever it is used: the random sampling column names, `clean_item` in the parameter checks, the custom-enzyme test of the crux wrapper and the experimental file codes.

Protein model and analysis (lib/CoMPaseD_protein_class.py, lib/CoMPaseD_analysis_script.py):

- Mean, median and standard deviation of coverages: the result objects keep the coverage lists these are computed from.
- The weighted geometric mean protease score, the detectability power scaling and `multiply_dmsp`: real-valued arithmetic outside the sampling rules.
- `get_numeric_list`: only the list-input path, which is the only one its callers use.
- Merges on the protease name rely on distinct protease names, as the configuration gives them.
- `normalise_mc`'s warning for totals outside [0.99, 1.01] is a flag; it does not change the result.
- Analysis.Weighted: a weight is a real or NaN; an infinite weight, which `sample` also rejects with ValueError, is not modelled. The weight columns are taken as they stand when sampling starts, after any `multiply_dmsp`.
- Analysis.SampleTrials: two random sampling columns whose names differ only in case are recorded under one lower-cased `sampling_` name, so in the source the second 0/1 column overwrites the first and `pep_used` sums that column twice. The model keeps one trial per column, so a row drawn only by the overwritten trial stays kept (`Analysis.KeptIffDrawn`).

Subcellular score script (Manuscript_Scripts/ProteaseScoreForSubcell.py):

- The score formula, the summaries per group and the table output. The model covers the trials, the trypsin baseline separation and the join on (Random sampling, Protein group).

Peptide mapper and crux wrapper (lib/CoMPaseD_PeptideMapper.py, lib/CoMPaseD_crux_script.py):

- Reading the file list (readline, rstrip, stopping at a blank line) and `read_csv` of each digest. Pooling starts from the digests' rows.
- Index persistence through pickle and the process pool that maps peptide chunks in parallel.
- The crux wrapper's `map_peptides`: it only runs promast over a file list.
- PeptidePooling: the MC column is compared as text, as the source sorts the text read from the file list.

Configuration (CoMPaseD_cli.py, lib/CoMPaseD_gui_param_functions.py, lib/CoMPaseD_tools.py):

- The command-line overrides beyond the protease list, MC lists, MC frequencies, peptide number or fraction, and task selection: the score weights, mass and length filters, sampling number and the like only copy option text into the parameter object.
- `out_folder` and FASTA path handling, and `makedirs` on the output folder.
- The default file paths set by the parameter object's `__init__`.
- The message text of a missing required key: the model keeps the error, not its wording.
- Parameter lines spanning several lines of the file.
- `parse_mc_freq_list` on a list input: the command line always passes text.
- `config_to_numeric_list`'s printed message for a skipped token.

Export (lib/CoMPaseD_gui_export_functions.py):

- The abundance weights written into the kept rows: `get_abundance`, the pool files and the dynamic-range cutoff.
- The rounding of a group's kept share works on exact reals, not on binary floats.
- The exception handler of `load_proteins` becomes the `Err` of a `Result`, and the GUI message box is left out.

DeepMSPeptide (lib/CoMPaseD_DMSP.py):

- The keras model: its load is left out, its `predict` is a function parameter and its `input_shape[1]` is the parameter `maxAa`.
- The mean of an empty prediction list (NaN in numpy) is never written: a special entry always comes with an encoded peptide.

Experimental comparison (Manuscript_Scripts/CoMPaseD_vs_Experimental_AnalysisScript_subcell.py):

- `argparse`, file listing and file reading.
- The alternative grouping from an annotation file, lines 190-214, 278-315 and 381-422.
- Sorting the table, the `groupby` summaries and the in-silico aggregation after the codes.
- `str.contains` and `str.startswith` on the protein column are substring and prefix tests; regular expression patterns are not modelled.
- A NaN coverage mean is `None`, and the score formula is the function parameter `score`.
- ExperimentalAnalysis.Stats: pandas `count()` skips NaN coverages, but the model's coverages are reals without NaN, so the count is the number of rows of the group.

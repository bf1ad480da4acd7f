TestResult.DisplayName,TestResult.Outcome,TestResult.Duration,TestResult.ResourceCount,RandomSeed
CrossNerTarget.ConvertWithListAccumulator (correctness),Passed,00:00:00.3712439,1864058,3
CrossNerTarget.ConvertWithListAccumulator (well-formedness),Passed,00:00:00.0983390,40645,3

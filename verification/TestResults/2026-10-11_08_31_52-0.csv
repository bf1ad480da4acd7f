TestResult.DisplayName,TestResult.Outcome,TestResult.Duration,TestResult.ResourceCount,RandomSeed
CrossNerTarget.ConvertWithListAccumulator (correctness),Passed,00:00:00.4058502,1872757,4
CrossNerTarget.ConvertWithListAccumulator (well-formedness),Passed,00:00:00.0819979,40645,4
